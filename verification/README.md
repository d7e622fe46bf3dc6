# Trading-course systems: a verified model of the core logic

This project models, in Dafny, the sequential logic of a trading-course
repository that grew over several assignments into a small trading system. The
socket servers, threads, shared-memory calls and data loaders are plumbing
around that logic and are left out. What the project models and proves:

- **Order intake and lifecycle.**
  - `Order.from_dict` validation and normalisation. The two copies are identical, so one model covers both.
  - The `*`-delimited frame splitter of the order-manager servers.
  - The validate → id → risk → execute → record → ack pipeline and the id counter.
  - Both risk-engine rule sets: per-order size, per-symbol position and the singleton construction.
  - The order state machine.
  - The FIX 4.2 tag=value parser, with SOH as the field separator.
  - The outcome shapes of the random matching engine, with the draw as an explicit choice.
- **The price-time-priority limit order book.**
  - Add, modify, cancel, matching of crossing orders, best bid/ask and aggregated depth.
  - The book is a map of order records plus bags of versioned heap entries.
  - It is proved to keep its well-formedness invariant and to leave no crossed book after any operation.
- **The shared price table.** A fixed symbol-indexed table with keyed read and update, and the length-prefixed metadata record with its round trip.
- **Streaming signal generators.**
  - Naive, windowed and crossover moving averages. The running-sum versions are proved equal to reference means over the window.
  - Momentum, MACD/EMA and benchmark.
  - The indicator engine: price buffer, EMA, ATR, n-bar highs and lows.
  - The regime scorer, the three regime strategies and the router.
  - The two pattern-demo strategies.
- **Accounting and object patterns.**
  - Backtester fill accounting, the broker and the one-bar-delayed engine.
  - The market simulation's execution, vote combining and sizing.
  - Command undo/redo.
  - The composite and builder portfolio trees, the observer list, and portfolio metric aggregation.

Prices and money are `real`; no floating-point rounding is modelled. Every
stateful class becomes a state record with pure transition functions.
`Wrappers`, `Text` and `Series` hold the shared vocabulary: results and
options, the ASCII string functions Python provides (`strip`, `lower`,
`isalnum`), the base-10 literals `int()` and `float()` accept (underscores
between digits, a decimal point, an exponent, written with ASCII digits), and
sums, means and extremes of price sequences.

Several facts proved about the model describe the source as written rather than as
intended.
They are listed under "## Findings" when a corrected definition exists, and
noted here otherwise:

- The windowed strategy of assignment 8 does not check that its short window is
  shorter than its long one. Its tests expect equal windows to be refused, but
  `MovingAverages.EqualWindowsAlwaysHold` shows they are accepted and that the
  strategy then always holds.
- The sentiment strategy returns None rather than a signal list.
- In the trading pipeline, the indicator engine buffers a price before the
  strategies see it. The breakout strategy compares that price with the highest
  and lowest of a window that already contains it, so it can never signal
  (`Regimes.FreshPriceNeverBreaks`).
- The regime detector's range-break score counts `price > low` over the last 20
  prices as a break, as the code does (`Regimes.Assess`, `rangeBreak`); the
  breakout strategy itself compares with `price < low`.
- The naive moving-average strategy of assignment 3 stores only the first `l`
  prices, although its docstring describes a moving average. After warm-up it
  repeats the crossover of those frozen prices on every tick, so its signals
  stop following the market (`MovingAverages.NaiveSignals`).
- The bearish branch of the trend strategy emits BUY, as the code does.

## Model

| member | source | states |
|---|---|---|
| OrderIntake.FirstMissing | ProjectTradingSystem/order.py:19-21 | the reported field is the first of side, symbol, qty, price (in that order) that the payload lacks; none is reported exactly when all four are present |
| OrderIntake.FromDict | ProjectTradingSystem/order.py:17-56 | a missing field is rejected with the message naming the first missing one; a non-mapping payload crashes instead of being rejected; every returned order has a non-empty stripped upper-case symbol, qty > 0 and price > 0; every rejection carries a message (the Assignment 8 copy at Assignment8/order_manager.py:33-64 is the same code) |
| OrderIntake.CleanSymbolShape | ProjectTradingSystem/order.py:31 | the cleaned symbol has no surrounding whitespace and no lower-case ASCII letter |
| OrderIntake.Validated | ProjectTradingSystem/order.py:23-49 | on success the side is the upper-cased side word, the symbol the upper-cased stripped symbol, qty > 0 and price > 0; a failure always has a message |
| OrderIntake.CheckFields | ProjectTradingSystem/order.py:27-49 | accepts only BUY or SELL, a non-empty symbol, a positive integer qty and a positive float price, and then passes them through unchanged |
| OrderIntake.SideOf | ProjectTradingSystem/order.py:27-28 | a side exists exactly for the words BUY and SELL, and names that word |
| OrderIntake.QtyRule | ProjectTradingSystem/order.py:36-41 | an accepted qty is positive; an unconvertible or non-positive qty is refused with a message |
| OrderIntake.PriceRule | ProjectTradingSystem/order.py:44-49 | an accepted price is positive; an unconvertible or non-positive price is refused with a message |
| OrderIntake.FromFields | ProjectTradingSystem/order.py:23-56 | with the four fields present, an accepted order is well formed, carries ts and id exactly when the payload has them, and keeps the normalised side and symbol |
| OrderIntake.Finish | ProjectTradingSystem/order.py:52-56 | the order is built exactly when ts and id both convert; a failed conversion is never a validation rejection; a type error in ts, or in id after ts converted, is an uncaught crash |
| OrderIntake.OptionalFloat | ProjectTradingSystem/order.py:52 | a converted ts is present exactly when the key is |
| OrderIntake.OptionalInt | ProjectTradingSystem/order.py:53 | a converted id is present exactly when the key is |
| OrderIntake.FirstViolationReported | ProjectTradingSystem/order.py:23-49 | against a reference list of every broken rule (each judged alone), the order is rejected exactly when the list is non-empty, with the first rule's message: first failure wins |
| OrderIntake.RejectedIffInvalid | ProjectTradingSystem/order.py:23-53 | only the four validation rules produce a rejection, and a rule failure is reported with its own message |
| OrderIntake.ValidatedIsFirstViolation | ProjectTradingSystem/order.py:23-49 | the validation outcome fails exactly when some rule is broken, with the first broken rule's message |
| OrderIntake.CheckIsFirstViolation | ProjectTradingSystem/order.py:27-49 | the field checks fail exactly when the reference violation list is non-empty, naming its head |
| OrderIntake.OptionalFieldsDecide | ProjectTradingSystem/order.py:52-56 | once every rule holds, the order is produced exactly when ts and id convert, and crashes exactly on the first type error among them |
| OrderIntake.LiteralFormsAccepted | ProjectTradingSystem/order.py:17-56 | the payload with side "BUY", symbol "AAPL", qty "1_000" and price "1e2" is accepted as BUY 1000 AAPL at 100.0 with no timestamp and no id: qty and price strings are read as `int()` and `float()` read them |
| Text.ParseInt | ProjectTradingSystem/order.py:37 | a success needs a non-blank string; `Text.IntRoundTrip`, `Text.GroupingIgnored`, `Text.IntRefusals` and `Text.IntFormRefusals` state what `int()` accepts and what it reads |
| Text.ParseFloat | ProjectTradingSystem/order.py:45 | a success needs a non-blank string; `Text.FloatAgreesWithInt`, `Text.PointForm`, `Text.ScientificForm`, `Text.ExponentScales` and `Text.FloatRefusals` state what `float()` accepts and what it reads |
| Text.IntRoundTrip | ProjectTradingSystem/order.py:37 | `int()` reads back what `str()` prints for every integer, negative ones included |
| Text.GroupingIgnored | ProjectTradingSystem/order.py:37 | one underscore between two runs of digits is accepted and changes nothing: the literal means the digits written together |
| Text.GroupedDigitPart | ProjectTradingSystem/order.py:37 | two digit runs joined by one underscore form a well-formed digit group worth the joined digits |
| Text.PlainDigits | ProjectTradingSystem/order.py:37 | every non-empty run of ASCII digits is a well-formed digit group, each character counting as one digit |
| Text.DigitPartChars | ProjectTradingSystem/order.py:37 | a well-formed digit group holds nothing but digits and underscores |
| Text.NatDigitsRoundTrip | ProjectTradingSystem/order.py:37 | the digits printed for a natural number form a digit group whose value is that number |
| Text.UnsignedLiteral | ProjectTradingSystem/order.py:36-47 | a literal with no sign and no surrounding whitespace is read as a positive literal as it stands |
| Text.NegativeLiteral | ProjectTradingSystem/order.py:36-47 | a leading minus sign negates what the rest of the literal reads as, for `int()` and `float()` alike |
| Text.FloatAgreesWithInt | ProjectTradingSystem/order.py:36-47 | every string `int()` accepts, `float()` accepts too, with the same value |
| Text.ExponentForm | ProjectTradingSystem/order.py:45 | a float literal splits at its first 'e' or 'E' into a significand and a signed exponent digit group |
| Text.PointForm | ProjectTradingSystem/order.py:45 | digits around a point read as the whole part plus the fraction digits over ten to their count, with digits on either side sufficing |
| Text.ScientificForm | ProjectTradingSystem/order.py:45 | a significand followed by 'e' or 'E' and the printed integer k is the significand times ten to the k |
| Text.ExponentScales | ProjectTradingSystem/order.py:45 | digits, 'e' and a printed integer k read as the digits times ten to the k, for negative k as well |
| Text.IntLiteralExamples | ProjectTradingSystem/order.py:37 | "1_000" is read as 1000 |
| Text.IntRefusals | ProjectTradingSystem/order.py:36-39 | "1__0", "_1" and "1_" are refused, so the qty rule reports "qty must be an integer" |
| Text.IntFormRefusals | ProjectTradingSystem/order.py:36-39 | "1e2", "1.0" and the empty string are refused by `int()` |
| Text.FloatLiteralExamples | ProjectTradingSystem/order.py:45 | "1e2" is read as 100.0 |
| Text.ScientificExample | ProjectTradingSystem/order.py:45 | "1.5E3" is read as 1500.0 |
| Text.SignedFloatExample | ProjectTradingSystem/order.py:45 | "-2.5e-1" is read as -0.25 |
| Text.FractionOnlyExample | ProjectTradingSystem/order.py:45 | ".5" is read as 0.5 |
| Text.WholeOnlyExample | ProjectTradingSystem/order.py:45 | "1." is read as 1.0 |
| Text.FloatRefusals | ProjectTradingSystem/order.py:44-47 | a bare "." and "1e" are refused, so the price rule reports "price must be a float" |
| Text.UnderscorePointRefused | ProjectTradingSystem/order.py:44-47 | "1_.5" is refused: an underscore must stand between two digits |
| Framing.Find | Assignment8/order_manager.py:138-140 | the index found holds the first `*` of the buffer, and -1 is returned exactly when there is none |
| Framing.ExtractClean | Assignment8/order_manager.py:137-142 | no cut-off frame and no leftover tail contains the delimiter |
| Framing.ExtractReassembles | Assignment8/order_manager.py:137-142 | the frames, each followed by its delimiter, and then the leftover tail, give back exactly the buffer |
| Framing.ExtractOfJoined | Assignment8/order_manager.py:137-142 | the split is unique: delimiter-free frames joined with delimiters and followed by a delimiter-free tail are recovered exactly |
| Framing.ExtractAppend | Assignment8/order_manager.py:134-142 | when bytes are appended, the frames already complete come first, followed by those of the old tail plus the new bytes |
| Framing.Receive | Assignment8/order_manager.py:129-142 | after each chunk the buffer keeps no delimiter, so it holds only an incomplete frame |
| Framing.ChunkingIrrelevant | Assignment8/order_manager.py:127-145 | however the byte stream is cut into chunks, the connection sees exactly the frames of the whole stream, each once and in order, and keeps the same incomplete tail |
| Framing.Processed | Assignment8/order_manager.py:143-145 | only blank frames are dropped, so no more frames are processed than were cut off |
| Framing.TwoChunkExample | Assignment8/order_manager.py:134-145 | three frames split across two chunks mid-frame are cut as A, blank, B with C left in the buffer, and the blank frame is not processed |
| Framing.ExampleFrames | Assignment8/order_manager.py:134-142 | the frames and tail of the two-chunk stream |
| Framing.ExampleSkipsBlank | Assignment8/order_manager.py:143-144 | a whitespace-only frame is skipped |
| AckServer.Judge | Assignment8/order_manager.py:151-166 | an accepted frame's order is well formed; every refusal is a negative ack with a message and no order |
| AckServer.JudgeFollowsIntake | Assignment8/order_manager.py:151-166 | undecodable bytes end the loop without a reply; bad JSON is answered "bad_json"; a validation error is answered with its message; only a valid order is accepted |
| AckServer.ProcessFrame | Assignment8/order_manager.py:168-192 | an accepted order is acknowledged positively with its fields unchanged except the id; a missing id becomes the next counter value and advances the counter; a client id is kept and the counter is untouched; refusals leave the counter unchanged |
| AckServer.Serve | Assignment8/order_manager.py:137-149 | at most one reply per processed frame, exactly one each when nothing raised; the counter never goes back |
| AckServer.ServeStep | Assignment8/order_manager.py:143-145 | a replied-to frame contributes its ack first, and the rest of the frames are served from the updated counter |
| AckServer.ServeAppend | Assignment8/order_manager.py:137-149 | serving two batches in turn is serving their concatenation, and a raise in the first batch ends the loop |
| AckServer.ConnectionServesStream | Assignment8/order_manager.py:120-149 | a connection replies exactly as serving the frames of the whole byte stream would, however it was chunked: each complete frame is handled once, in arrival order |
| AckServer.BadJsonKeepsReading | Assignment8/order_manager.py:153-158 | a non-JSON frame gets exactly one "bad_json" negative ack and the following frames are served as if it had not been there |
| AckServer.CounterCountsDrawnIds | Assignment8/order_manager.py:168-171 | the counter advances by exactly one per accepted order without an id, so server ids are unique and increasing |
| AckServer.ConsecutiveIds | Assignment8/order_manager.py:168-171 | two id-less orders in a row are numbered n and n + 1 |
| ExecutionDesk.Numbered | ProjectTradingSystem/order_manager.py:152-155 | an order keeps every field and gets an id: its own if it had one (the counter untouched), otherwise the next counter value, which then advances by one |
| ExecutionDesk.Handle | ProjectTradingSystem/order_manager.py:129-193 | the stages run in order (validation, id, risk, execution) and a later stage never runs after an earlier one refuses; a risk failure is acked with neither order nor message and records nothing; a passing order is recorded with the risk engine before execution, appended to the log unless cancelled, and acked positively with the order even when cancelled |
| ExecutionDesk.HandleKeepsLog | ProjectTradingSystem/order_manager.py:158-190 | the order log only grows and the counter never goes back; every logged order is recorded with the risk engine; a passing order moves its symbol's position by its qty even when it is cancelled |
| ExecutionDesk.Serve | ProjectTradingSystem/order_manager.py:109-117 | blank frames are skipped and every other frame gets at most one ack, exactly one each when nothing raised |
| ExecutionDesk.ServeKeepsLog | ProjectTradingSystem/order_manager.py:173-190 | over a whole connection the order log only grows and stays accounted for by the risk engine |
| ExecutionDesk.ServeKeepsLimits | ProjectTradingSystem/order_manager.py:158-166 | no sequence of frames pushes any symbol past the risk engine's position limit |
| MatchingEngine.Simulate | ProjectTradingSystem/matching_engine.py:16-26 | a cancel carries no quantity; a partial fill happens only for qty > 1 and fills between 1 and qty - 1; a full fill reports the order's qty; the outcome is a cancel exactly when the first draw says so |
| MatchingEngine.EveryPossibleOutcomeOccurs | ProjectTradingSystem/matching_engine.py:16-26 | every outcome within those bounds is produced by some draw, so the bounds are tight |
| MatchingEngine.SingleUnitNeverPartial | ProjectTradingSystem/matching_engine.py:20 | an order of quantity one is never partially filled |
| RiskLimits.FirstBreach | ProjectTradingSystem/risk_engine.py:39-67 | the size rule is judged first, then the position rule (the new qty plus every recorded qty of the symbol, BUY and SELL alike), then cash (qty times price against the balance); the first rule broken is the one reported |
| RiskLimits.Check | ProjectTradingSystem/risk_engine.py:39-67 | an order passes exactly when it is within the size limit, within the position limit and affordable |
| RiskLimits.UpdatePosition | ProjectTradingSystem/risk_engine.py:70-73 | a passing order is appended to its own symbol's list and nothing else changes; a failing one changes nothing; limits and cash are never written |
| RiskLimits.PositionAfterUpdate | ProjectTradingSystem/risk_engine.py:70-73 | recording moves the symbol's position by the order's qty, and only when the order passes |
| RiskLimits.UpdateKeepsLimits | ProjectTradingSystem/risk_engine.py:51-73 | an engine within its position limit stays within it after any update |
| RiskLimits.Construct | ProjectTradingSystem/risk_engine.py:12-36 | the first construction builds an empty engine from its arguments; every later one returns the same instance, with what it recorded since, and ignores its arguments |
| RiskLimits.SingletonIgnoresLaterArguments | ProjectTradingSystem/risk_engine.py:17-29 | two constructions in a row give the same engine whatever the second call's arguments |
| RiskLimits.UpdateAll | ProjectTradingSystem/risk_engine.py:70-73 | any run of updates keeps the limits and the cash balance as constructed |
| RiskLimits.UpdateAllKeepsLimits | ProjectTradingSystem/risk_engine.py:51-73 | starting within the position limit, any run of updates stays within it |
| PositionGuard.Check | Assignment9/risk_engine.py:12-19 | an order passes exactly when it is within the size limit and its qty plus the symbol's recorded qty is within the position limit; the size rule is judged first and only the first failure is logged, with the source's message |
| PositionGuard.UpdatePosition | Assignment9/risk_engine.py:22-24 | a passing order is appended to its symbol's list, a failing one changes nothing, the check's log events are emitted either way, and the limits never change |
| PositionGuard.UpdateTouchesOneSymbol | Assignment9/risk_engine.py:22-24 | other symbols' lists are untouched, and the symbol's exposure grows by the qty exactly when the order passes |
| PositionGuard.OversizeExample | Assignment9/tests/test_risk_engine.py:16-24 | a qty of 15 against a size limit of 10 fails with the single log line "Order quantity of 15 exceeds max order size 10" |
| PositionGuard.PositionOverflowExample | Assignment9/tests/test_risk_engine.py:27-37 | 15 more MSFT on top of 90 against a position limit of 100 fails with the single position log line |
| PositionGuard.UpdateExamples | Assignment9/tests/test_risk_engine.py:40-60 | a passing TSLA order is stored as the symbol's only entry; one that fails the size rule leaves no entry for the symbol |
| OrderState.Create | Assignment9/order.py:19-23 | every order starts in NEW with the given symbol, qty and side |
| OrderState.Transition | Assignment9/order.py:14-30 | the call succeeds exactly from NEW or ACKED (a terminal state raises KeyError); a permitted target (NEW to ACKED or REJECTED, ACKED to FILLED or CANCELED) is taken silently; any other target keeps the state and logs OrderTransFailed with the source's message |
| OrderState.Run | Assignment9/order.py:26-30 | no contract of its own: successive `transition` calls stopping at the first exception; `OrderState.RunMovesForward` and `OrderState.AtMostTwoMoves` state where it can lead, `OrderState.AckThenFill` and `OrderState.CancelFromNewRefused` the tests' runs |
| OrderState.RunMovesForward | Assignment9/order.py:14-17 | along any run of transitions the state never goes back, and the number of successful moves is bounded by how far the state advanced |
| OrderState.AtMostTwoMoves | Assignment9/order.py:14-20 | a new order makes at most two successful moves and, once it has moved, is never NEW again |
| OrderState.AckThenFill | Assignment9/tests/test_order.py:5-13 | NEW to ACKED to FILLED succeeds with no log events |
| OrderState.CancelFromNewRefused | Assignment9/tests/test_order.py:15-29 | CANCELED straight from NEW keeps the order NEW and logs "Cannot transition to OrderState.CANCELED from NEW" |
| FixParser.ReplaceChar | Assignment9/fix_parser.py:10 | each SOH is replaced by the delimiter and every other character is kept, position for position |
| FixParser.Split | Assignment9/fix_parser.py:12 | splitting on an explicit separator always yields at least one field |
| FixParser.SplitJoin | Assignment9/fix_parser.py:12 | splitting loses nothing: the fields joined back with the separator give the text, and no field holds the separator |
| FixParser.JoinSplit | Assignment9/fix_parser.py:12 | splitting a join of separator-free fields gives back exactly those fields |
| FixParser.FirstEquals | Assignment9/fix_parser.py:16-18 | finds the first '=' of a field, and finds nothing exactly when the field has none |
| FixParser.Entry | Assignment9/fix_parser.py:16-19 | a field contributes an entry exactly when it contains '=' |
| FixParser.Parse | Assignment9/fix_parser.py:4-21 | no contract of its own: `FixParser.FillIsLastValue` states its dict (the last value of each tag among the fields containing '=', keys and values stripped), `FixParser.EmptyMessage` the empty message, and `FixParser.SohActsAsDelimiter` the SOH replacement |
| FixParser.FillIsLastValue | Assignment9/fix_parser.py:15-19 | the parsed dict holds exactly the tags of fields containing '=', each with the stripped value of the last such field: fields without '=' are skipped and a later duplicate overwrites an earlier one |
| FixParser.KeysComeFromFields | Assignment9/fix_parser.py:12-19 | every key of the result is the stripped tag of some field that contains '=' |
| FixParser.EmptyMessage | Assignment9/fix_parser.py:5-6 | an empty message parses to the empty dict |
| FixParser.SohActsAsDelimiter | Assignment9/fix_parser.py:8-12 | SOH and the chosen delimiter separate fields alike: replacing SOH by the delimiter beforehand changes nothing, for a delimiter that is not whitespace |
| FixParser.StripReplace | Assignment9/fix_parser.py:8-10 | replacing SOH by a non-whitespace delimiter commutes with stripping the message |
| FixParser.EntryOfField | Assignment9/fix_parser.py:18-19 | a field splits at its first '=': the tag is the stripped text before it, and the value keeps any later '=' |
| OrderBook.Push | ProjectTradingSystem/orderbook.py:63-71 | the record's (price key, seq, id, version) entry goes onto its own side's heap; the other heap and the orders are untouched |
| OrderBook.MinValid | ProjectTradingSystem/orderbook.py:76-83 | what survives popping is an entry of the heap that passes `_best`'s liveness test (known id, active, qty > 0, current version, right side) |
| OrderBook.Best | ProjectTradingSystem/orderbook.py:73-83 | a chosen order is a live order of the asked side |
| OrderBook.Normalize | ProjectTradingSystem/orderbook.py:29-61 | a missing id, a side other than BUY or SELL and a missing price or qty are rejected in that order with the source's messages; otherwise the record is active, takes the next seq, the converted price and qty, and a version one above the id's previous one (or 1) |
| OrderBook.Insert | ProjectTradingSystem/orderbook.py:136-138 | the record replaces any earlier one for the id, a new id goes last in insertion order, the seq counter advances to the record's seq, and its entry is pushed on its side only |
| OrderBook.Fill | ProjectTradingSystem/orderbook.py:113-127 | one fill trades min(incoming qty, resting qty) at the resting price with the buy and sell ids in the right places, reduces both orders by exactly that, deactivates an emptied resting order and touches nothing else |
| OrderBook.AddOrder | ProjectTradingSystem/orderbook.py:134-140 | an order that fails normalisation raises with that message and leaves the book as it was |
| OrderBook.ModifyOrder | ProjectTradingSystem/orderbook.py:142-146 | an unknown or inactive id returns no trades and changes nothing |
| OrderBook.CancelOrder | ProjectTradingSystem/orderbook.py:158-166 | returns False exactly for an unknown or inactive id, and then changes nothing; otherwise only that order changes: inactive, qty 0, version bumped |
| OrderBookInvariant.EmptyInv | ProjectTradingSystem/orderbook.py:17-22 | the empty book satisfies the book invariant (every heap entry names a known id, valid entries are current, every live order has a current entry, ids and seqs are consistent) |
| OrderBookInvariant.MinValidIsLeast | ProjectTradingSystem/orderbook.py:73-83 | the entry left on top after popping precedes every other valid entry in heap order, and none is left only when no entry is valid |
| OrderBookInvariant.BestIsBestLive | ProjectTradingSystem/orderbook.py:73-83 | `_best` picks the live order with the best price on the side (highest bid, lowest ask), the smallest seq among equal prices, and finds none exactly when the side has no live order |
| OrderBookInvariant.BestPrices | ProjectTradingSystem/orderbook.py:168-176 | the best bid is the highest price of a live buy and the best ask the lowest price of a live sell, each None exactly when that side has no live order |
| OrderBookInvariant.FillShrinks | ProjectTradingSystem/orderbook.py:113-127 | a fill only lowers quantities and deactivates orders |
| OrderBookInvariant.MatchShrinks | ProjectTradingSystem/orderbook.py:101-132 | matching only lowers quantities and deactivates orders, never adds or reshapes one |
| OrderBookInvariant.InvShrinks | ProjectTradingSystem/orderbook.py:101-132 | lowering quantities and deactivating orders keeps the book invariant |
| OrderBookInvariant.InsertKeepsEntries | ProjectTradingSystem/orderbook.py:136-138 | storing and pushing a record with the next seq and a newer version keeps every heap entry known and every valid entry current |
| OrderBookInvariant.InsertKeepsCover | ProjectTradingSystem/orderbook.py:136-138 | after storing and pushing, every live order still has a current entry on its side's heap |
| OrderBookInvariant.InsertKeepsIds | ProjectTradingSystem/orderbook.py:136-137 | after storing, the insertion order lists each id once and every seq was issued by the counter |
| OrderBookInvariant.InsertInv | ProjectTradingSystem/orderbook.py:136-155 | storing a record with the next seq and a newer version than the id ever had keeps the book invariant |
| OrderBook.Match | ProjectTradingSystem/orderbook.py:101-132 | no contract of its own: `OrderBookInvariant.MatchInv` and `OrderBookMatching.MatchUncrosses` state that it keeps the book invariant and leaves it uncrossed, and `OrderBookMatching.MatchTrades` that the traded total is what the incoming order lost, at crossing prices |
| OrderBookInvariant.MatchInv | ProjectTradingSystem/orderbook.py:101-132 | matching keeps the book invariant |
| OrderBookInvariant.AddOrderInv | ProjectTradingSystem/orderbook.py:134-140 | adding an order keeps the book invariant |
| OrderBookInvariant.ModifyOrderInv | ProjectTradingSystem/orderbook.py:142-156 | modifying an order keeps the book invariant |
| OrderBookInvariant.CancelOrderInv | ProjectTradingSystem/orderbook.py:158-166 | cancelling an order keeps the book invariant: the bumped version makes its entries stale |
| OrderBookMatching.ShrinksUncrossedExcept | ProjectTradingSystem/orderbook.py:113-127 | lowering quantities and deactivating orders cannot cross a book |
| OrderBookMatching.MatchUncrosses | ProjectTradingSystem/orderbook.py:101-132 | matching an order against a book that is uncrossed apart from it leaves the whole book uncrossed: every live bid is below every live ask |
| OrderBookMatching.StopsUncrossed | ProjectTradingSystem/orderbook.py:106-111 | when the opposite side is empty or its best price does not cross, the book is already uncrossed |
| OrderBookMatching.AddOrderKeepsUncrossed | ProjectTradingSystem/orderbook.py:134-140 | adding an order to an uncrossed book leaves it uncrossed |
| OrderBookMatching.ModifyOrderKeepsUncrossed | ProjectTradingSystem/orderbook.py:142-156 | modifying an order of an uncrossed book leaves it uncrossed |
| OrderBookMatching.CancelOrderKeepsUncrossed | ProjectTradingSystem/orderbook.py:158-166 | cancelling keeps a book uncrossed |
| OrderBookMatching.MatchTrades | ProjectTradingSystem/orderbook.py:106-132 | the total traded equals what the incoming order lost, and every fill has a positive quantity at a price the incoming order crosses |
| OrderBookMatching.MatchSettles | ProjectTradingSystem/orderbook.py:126-130 | any order that matching reduces to nothing, incoming or resting, ends inactive |
| OrderBookMatching.OperationsSettle | ProjectTradingSystem/orderbook.py:126-166 | adding, modifying and cancelling keep every active order non-empty |
| OrderBookMatching.ModifyLosesPriority | ProjectTradingSystem/orderbook.py:142-156 | a modified order takes the new qty and price when given, a seq later than every order's (so it queues behind its price level), and a bumped version that makes all its earlier entries stale; then it is re-matched |
| OrderBookDepth.AddToLevel | ProjectTradingSystem/orderbook.py:186 | adding a quantity at a price raises that level by it (creating it at the quantity) and leaves every other level alone; prices stay distinct |
| OrderBookDepth.Accumulate | ProjectTradingSystem/orderbook.py:180-186 | the accumulated levels have distinct prices |
| OrderBookDepth.AccumulateSums | ProjectTradingSystem/orderbook.py:182-186 | against a reference per-price sum over the listed live orders, a price is a level exactly when some live order of the side rests there, and its quantity is that positive sum |
| OrderBookDepth.InsertSorted | ProjectTradingSystem/orderbook.py:188-189 | inserting a new price keeps the levels ordered and adds exactly that level |
| OrderBookDepth.SortLevels | ProjectTradingSystem/orderbook.py:188-189 | the sorted levels are ordered (descending or ascending) and are a rearrangement of the input levels |
| OrderBookDepth.DepthLevels | ProjectTradingSystem/orderbook.py:178-190 | the reported levels of a side run best price first; each is a price where live orders of that side rest, with their summed positive quantity; and every live order's price is reported |
| OrderBookDepth.SortedLevelsAreLive | ProjectTradingSystem/orderbook.py:182-189 | every reported level is a live price of the side with its summed quantity |
| OrderBookDepth.LivePricesAreLevels | ProjectTradingSystem/orderbook.py:182-189 | every live order's price is among the reported levels |
| OrderBookScenarios.RestingBuy | ProjectTradingSystem/tests/test_system.py:98 | a buy of 5 at 100 on an empty book rests with seq 1 and version 1, one bid entry and no trade |
| OrderBookScenarios.PartialFillMatching | ProjectTradingSystem/tests/test_system.py:99-100 | matching the sell of 10 against the resting buy of 5 trades 5 at 100 and stops |
| OrderBookScenarios.PartialFillMatch | ProjectTradingSystem/tests/test_system.py:97-100 | the sell of 10 is accepted, stored after the buy and matched into one trade of 5 |
| OrderBookScenarios.PartialFillDepth | ProjectTradingSystem/tests/test_system.py:101-104 | the book after the partial fill shows 5 at 100 on the asks |
| OrderBookScenarios.PartialFillLeavesFiveOnAsks | ProjectTradingSystem/tests/test_system.py:97-104 | the whole test case: one trade of 5, and 5 left on the asks at 100 |
| SharedPrices.IndexOf | Assignment8/shared_memory_utils.py:36 | a symbol has an index exactly when it is in the list, and the index is its last occurrence, since a later key overwrites an earlier one |
| SharedPrices.Create | Assignment8/shared_memory_utils.py:79-81 | a new table has one slot per symbol, all at 0.0 |
| SharedPrices.Update | Assignment8/shared_memory_utils.py:94-99 | an unknown symbol raises KeyError naming it and writes nothing; a known one writes only its own slot |
| SharedPrices.Read | Assignment8/shared_memory_utils.py:114-119 | reading fails with KeyError exactly for an unknown symbol |
| SharedPrices.ReadAfterUpdate | Assignment8/shared_memory_utils.py:97-119 | a read after an update of the same symbol returns the written price; other symbols read as before |
| SharedPrices.UpdateAll | Assignment8/shared_memory_utils.py:97-99 | repeated updates keep the symbol list and the table's size |
| SharedPrices.LastWriteWins | Assignment8/tests/test_shared_memory.py:83-92 | after a series of updates of one symbol it reads as the last price written |
| SharedPrices.GetAssign | Assignment8/shared_memory_utils.py:131 | assigning a key in the result dict makes it read as the new value and leaves every other key alone |
| SharedPrices.ReadAll | Assignment8/shared_memory_utils.py:121-132 | no contract of its own: `SharedPrices.ReadAllAgreesWithRead` states that it maps exactly the known symbols, each to what `read` returns, and `SharedPrices.ReadAllInOrder` the order of its entries |
| SharedPrices.CollectReads | Assignment8/shared_memory_utils.py:129-131 | after the loop over the first n symbols, each symbol maps to the price of its last slot among them, and unknown symbols are absent |
| SharedPrices.ReadAllAgreesWithRead | Assignment8/shared_memory_utils.py:121-132 | `read_all` agrees with `read` on every known symbol and holds no other |
| SharedPrices.ReadAllInOrder | Assignment8/shared_memory_utils.py:128-132 | with distinct symbols, `read_all` lists them in construction order beside their prices |
| SharedPrices.UpdateMultiple | Assignment8/shared_memory_utils.py:141-145 | writing a batch keeps the symbol list and the table's size |
| SharedPrices.UpdateMultipleReads | Assignment8/shared_memory_utils.py:141-145 | after a batch each known symbol reads as its last value in the batch, or as before when the batch did not name it; unknown symbols are ignored |
| SharedPrices.SymbolsAreConstructionList | Assignment8/shared_memory_utils.py:147-154 | the symbol list returned is the construction list, before and after any writes |
| SharedPrices.Header | Assignment8/shared_memory_utils.py:224 | the length header is four bytes |
| SharedPrices.HeaderRoundTrip | Assignment8/shared_memory_utils.py:224-235 | unpacking the packed length gives back the length |
| SharedPrices.WriteMeta | Assignment8/shared_memory_utils.py:217-225 | a serialisation longer than METADATA_SIZE - 4 (1020 bytes) is refused; otherwise the block holds the length header, then the bytes, and keeps its old content after them |
| SharedPrices.MetaRoundTrip | Assignment8/shared_memory_utils.py:220-242 | reading back what was written gives the serialised bytes again |
| SharedPrices.EmptyMetaReadsAsNone | Assignment8/shared_memory_utils.py:237-238 | an empty serialisation reads back as no metadata (the empty dict) |
| SharedPrices.RecordRoundTrip | Assignment8/tests/test_serialization.py:14-35 | through a serialiser whose loads inverts dumps, any record that fits is read back unchanged |
| MovingAverages.NaiveStep | Assignment3/strategies.py:51-79 | during warm-up the price is stored; afterwards neither the stored list nor the windows change |
| MovingAverages.NaiveRun | Assignment3/strategies.py:33-79 | one signal per tick, and the windows never change |
| MovingAverages.NaiveFollowsAppend | Assignment3/strategies.py:51-79 | extending a stream by one tick extends the naive signal pattern: HOLD before l prices, then the reference signal of the first l prices |
| MovingAverages.NaiveSignals | Assignment3/strategies.py:51-79 | the naive strategy stores only the first l prices: it holds for l ticks and then repeats, on every later tick, the crossover of the means of the last s and all l of those stored prices |
| MovingAverages.NaiveExtend | Assignment3/strategies.py:51-79 | one more tick keeps the stored prefix of the stream and the naive signal pattern |
| MovingAverages.NaiveStepMatches | Assignment3/strategies.py:59-79 | a post-warm-up step signals BUY, SELL or HOLD as the mean of the last s stored prices is above, below or equal to the mean of the last l, and changes nothing |
| MovingAverages.WarmKeepsInv | Assignment3/strategies.py:130-145 | a warm-up tick keeps both running sums equal to their deques' sums and the short deque the tail of the long one |
| MovingAverages.WarmShortTail | Assignment3/strategies.py:133-135 | after a warm-up tick the short deque holds exactly the warm-up prices from slot l - s on |
| MovingAverages.SlideKeepsInv | Assignment3/strategies.py:151-164 | a post-warm-up tick keeps the sums equal to the deques' sums and the short deque the tail of the long one |
| MovingAverages.WindowedStep | Assignment3/strategies.py:130-172 | every tick keeps the running-sum invariant; a warm-up tick appends to the long deque and holds; a later tick drops the oldest price and appends the new one, keeping l prices |
| MovingAverages.WindowedRun | Assignment3/strategies.py:106-172 | one signal per tick; the running-sum invariant holds after every call |
| MovingAverages.WindowedFull | Assignment3/strategies.py:151-164 | after warm-up the deques hold exactly l and s prices, the short one being the last s of the long one |
| MovingAverages.WindowedStepMatches | Assignment3/strategies.py:130-172 | one tick keeps the long deque equal to the last l prices of the stream and signals the reference signal |
| MovingAverages.WindowedFullStepMatches | Assignment3/strategies.py:147-172 | after warm-up the sums are those of the last s and l earlier prices, the signal is their crossover, and the deque slides by one |
| MovingAverages.WindowedFullSignal | Assignment3/strategies.py:147-172 | after warm-up the signal compares the running averages taken before the current price is added |
| MovingAverages.WindowedMatchesReference | Assignment3/strategies.py:106-172 | for 1 ≤ s ≤ l, on every tick the windowed strategy signals the reference: HOLD until l earlier prices exist, then the crossover of the means of the last s and last l earlier prices; its long deque is the last l prices (the Assignment 8 copy at Assignment8/strategy.py:36-102 is the same code) |
| MovingAverages.MacStep | Assignment1/strategies.py:27-61 | every tick keeps the running-sum invariant (long sum = sum of the deque, short sum = sum of its slots from l - s); a warm-up tick appends and holds; a later tick slides the deque by one |
| MovingAverages.MacSlideKeepsInv | Assignment1/strategies.py:47-55 | dropping dq[l - s] from the short sum and dq[0] from the long sum, then adding the new price, keeps both sums exact |
| MovingAverages.MacWarmupShort | Assignment1/strategies.py:31-32 | during warm-up the short sum collects exactly the prices from slot l - s on |
| MovingAverages.MacRun | Assignment1/strategies.py:27-61 | one signal per tick, with the running-sum invariant after every call |
| MovingAverages.MacStepMatches | Assignment1/strategies.py:44-61 | one tick keeps the deque equal to the last l prices and signals the reference signal |
| MovingAverages.MacMatchesReference | Assignment1/strategies.py:27-61 | on every tick MAC signals the reference crossover of the last s and l earlier prices (the Assignment 2 copy at Assignment2/moving_average_strategy.py:18-52 is the same code) |
| MovingAverages.MacAgreesWithWindowed | Assignment1/strategies.py:27-61 | for 1 ≤ s ≤ l, whatever the stream, MAC and the windowed strategy emit the same signals tick by tick |
| MovingAverages.ReferenceExamples | Assignment3/ma_tests.py:29-82 | with windows (2, 5), the prices 10, 20, 30, 40, 100 give BUY and 100, 100, 40, 30, 20 give SELL |
| MovingAverages.SixthTickBuys | Assignment3/ma_tests.py:29-82 | the sixth tick of 10, 20, 30, 40, 100, 100 is BUY for both the naive and the windowed strategy |
| MovingAverages.SixthTickSells | Assignment3/ma_tests.py:29-82 | the reversed stream gives SELL on the sixth tick for both |
| MovingAverages.EqualWindowsAlwaysHold | Assignment8/strategy.py:12-34 | the constructor does not check its windows, so s == l is accepted rather than raising; with equal windows every tick holds |
| StreamingStrategies.Push | ProjectTradingSystem/strategy.py:59-71 | a bounded deque after an append holds the last `cap` prices of the old contents followed by the new one |
| StreamingStrategies.PushLast | ProjectTradingSystem/strategy.py:121-128 | appending to a bounded deque that holds the last `cap` closes of a stream leaves it holding the last `cap` closes of the extended stream |
| StreamingStrategies.RecordKeepsAlternation | ProjectTradingSystem/strategy.py:88-98 | a BUY while flat or a SELL while long keeps the history alternating BUY, SELL, ... from BUY and keeps the position equal to the history's length mod 2 |
| StreamingStrategies.Decide | ProjectTradingSystem/strategy.py:82-154 | BUY exactly on a switch from not-above to above while flat; SELL exactly when the sell condition holds while long and no BUY fired; nothing on the first observation |
| StreamingStrategies.NewCrossover | ProjectTradingSystem/strategy.py:34-53 | construction fails with "short_window must be < long_window" exactly when short >= long; otherwise the state is empty, flat and consistent |
| StreamingStrategies.Slide | ProjectTradingSystem/strategy.py:59-64 | a window update keeps its running sum equal to the sum of its deque and the deque equal to the last `cap` prices |
| StreamingStrategies.SlideBoth | ProjectTradingSystem/strategy.py:58-71 | both running sums stay equal to their deques' sums, each deque stays within its window, and the short deque stays the last `short_window` closes of the long one |
| StreamingStrategies.CrossoverStep | ProjectTradingSystem/strategy.py:55-99 | one bar keeps every state invariant (sums, window bounds, alternating history) and emits nothing while the long window is not full |
| StreamingStrategies.CrossoverSignals | ProjectTradingSystem/strategy.py:74-99 | a bar emits BUY at the close exactly when the windows are full, the previous relation was short <= long, now short > long, and the position is flat; SELL exactly on the reverse switch while long; any emitted signal is appended to the history and otherwise history and position are unchanged |
| StreamingStrategies.CrossoverRun | ProjectTradingSystem/strategy.py:55-99 | over any bar stream, one output per bar and the state invariant holds throughout, so the history always alternates BUY, SELL, ... |
| StreamingStrategies.CrossoverRunFacts | ProjectTradingSystem/strategy.py:59-84 | from construction, the long deque holds exactly the last `long_window` closes, and nothing is emitted on the first `long_window` bars |
| StreamingStrategies.CrossoverExtend | ProjectTradingSystem/strategy.py:59-75 | one more bar keeps the long deque on the last closes and the silent start |
| StreamingStrategies.NewMomentum | ProjectTradingSystem/strategy.py:113-124 | construction fails with "momentum_window must be >= 1" exactly when window < 1; otherwise the state is empty and flat |
| StreamingStrategies.MomentumStep | ProjectTradingSystem/strategy.py:126-160 | one bar keeps the history alternating, keeps the deque on the last `window + 1` closes, and emits nothing before `window` closes were seen |
| StreamingStrategies.MomentumSignals | ProjectTradingSystem/strategy.py:130-160 | a bar emits BUY exactly when `window + 1` closes are held, the oldest is non-zero, the previous momentum was not above the threshold, the new one is, and the position is flat; SELL exactly when momentum is below -threshold while long after the first observation; emitted signals are recorded |
| StreamingStrategies.MomentumRun | ProjectTradingSystem/strategy.py:126-160 | over any bar stream, one output per bar and the history alternates throughout |
| StreamingStrategies.MomentumExtend | ProjectTradingSystem/strategy.py:128-146 | one more bar keeps the deque on the last closes and the silent start |
| StreamingStrategies.MomentumQuietStart | ProjectTradingSystem/strategy.py:128-146 | from construction, the deque holds the last `window + 1` closes and nothing is emitted on the first `window` bars |
| Macd.EmaBetweenExtremes | Assignment2/macd_strategy.py:74-84 | the exponential moving average of a non-empty price list, seeded with the first price and folded with alpha = 2/(span+1), lies between the list's minimum and maximum |
| Macd.Cross | Assignment2/macd_strategy.py:56-72 | BUY exactly when MACD moves from at or below the signal line to above it; SELL exactly when it moves from at or above to below (and BUY did not fire); HOLD otherwise |
| Macd.SymbolStep | Assignment2/macd_strategy.py:16-72 | the history keeps the last 26 prices; below 26 prices the tick holds; at 26 the new MACD value EMA(12) - EMA(26) joins the last 9; below 9 MACD values the tick holds; afterwards the previous pair becomes (MACD, EMA(9) of the MACD values) and the action is the crossing rule on the old and new pairs |
| Macd.SymbolRun | Assignment2/macd_strategy.py:16-72 | one action per tick |
| Macd.StepShape | Assignment2/macd_strategy.py:22-46 | a tick moves a symbol's state from the shape of n ticks to that of n + 1 (history min(n, 26) long, min(9, n - 25) MACD values, previous pair set from the 34th tick) and holds before the 35th |
| Macd.SymbolWarmup | Assignment2/macd_strategy.py:22-46 | from a fresh symbol, the history is the last 26 prices and every tick before the 35th holds, so no BUY or SELL can occur earlier |
| Macd.MacdRun | Assignment2/macd_strategy.py:16-72 | no contract of its own: `generate_signals` over a tick stream; `Macd.SymbolsIndependent` states that each symbol's state is its own ticks' run |
| Macd.MacdStep | Assignment2/macd_strategy.py:16-29 | a tick moves only its own symbol's state (creating it fresh on first sight); every other symbol's entry is unchanged |
| Macd.Put | Assignment2/macd_strategy.py:21-26 | storing one symbol's state leaves every other symbol's entry unchanged |
| Macd.SymbolsIndependent | Assignment2/macd_strategy.py:16-72 | a symbol's state after a mixed stream equals its state after its own ticks alone, so symbols do not interfere |
| SimpleSignals.TickMomentumStep | Assignment1/strategies.py:73-139 | a call always stores the current price as the previous one and keeps the call counter consistent with which of previous price and previous difference are known |
| SimpleSignals.TickMomentumRun | Assignment1/strategies.py:73-139 | one action per tick, state consistent throughout |
| SimpleSignals.TickMomentumSignals | Assignment1/strategies.py:86-139 | from a fresh strategy, the first two ticks hold and every later tick SELLs after two rises in a row, BUYs after two falls in a row and holds otherwise; the stored difference is always the latest one |
| SimpleSignals.BenchmarkStep | Assignment2/BenchmarkStrategy.py:9-24 | BUY exactly on the first call, never SELL, and the first-day flag is cleared |
| SimpleSignals.BenchmarkRun | Assignment2/BenchmarkStrategy.py:9-24 | one action per tick |
| SimpleSignals.BenchmarkBuysOnce | Assignment2/BenchmarkStrategy.py:5-24 | over any non-empty stream from construction: BUY first and HOLD afterwards, so exactly one BUY and never a SELL |
| PatternStrategies.Record | Assignment6/patterns/strategy.py:24-29 | a tick appends its price to its own symbol's bounded history, which then holds the last `lookback_window` prices; other symbols' histories are unchanged |
| PatternStrategies.Bands | Assignment6/patterns/strategy.py:41-89 | for a positive base price the relative-change tests are plain price bands: above base * (1 + threshold), below base * (1 - threshold) |
| PatternStrategies.BreakoutSignal | Assignment6/patterns/strategy.py:36-52 | against a window: BUY 100 exactly when the price rises above the window's maximum by more than the threshold; otherwise SELL 100 exactly when it falls below the minimum by more than the threshold; an empty window or a zero extreme is an error (Python's `max([])` and division by zero); at most one order, always for the tick's symbol |
| PatternStrategies.BreakoutAsWritten | Assignment6/patterns/strategy.py:20-52 | the strategy as written compares the price with a window that already contains it; it emits nothing until the window is full |
| PatternStrategies.NoBreakoutInside | Assignment6/patterns/strategy.py:36-49 | a price inside a window of positive prices is never above its maximum or below its minimum, for any non-negative threshold |
| PatternStrategies.WindowPositive | Assignment6/patterns/strategy.py:26-29 | after a positive tick, the symbol's window is non-empty, positive and ends with that tick's price |
| PatternStrategies.BreakoutNeverFires | Assignment6/patterns/strategy.py:20-52 | with positive prices and a non-negative threshold the strategy as written never emits an order |
| PatternStrategies.BreakoutTestFailsAsWritten | Assignment6/Tests/tests.py:139-147 | the test's window [100, 101, 102], tick 106, threshold 0.03 emits nothing as written, though the test expects BUY |
| PatternStrategies.Breakout | Assignment6/patterns/strategy.py:20-52 | corrected: the price is compared with the window of the previous `lookback_window` prices, before the tick is recorded |
| PatternStrategies.BreakoutTestPasses | Assignment6/Tests/tests.py:139-152 | the corrected strategy gives BUY for 106 and SELL for 90 after [100, 101, 102], as the test expects |
| PatternStrategies.ReversionSignal | Assignment6/patterns/strategy.py:76-91 | against a full window: SELL 100 exactly when the price exceeds the window's mean by more than the threshold, otherwise BUY 100 exactly when it is below it by more than the threshold; an empty window or a zero mean is an error |
| PatternStrategies.MeanReversion | Assignment6/patterns/strategy.py:61-91 | the tick is recorded first and the test uses the window including it; nothing is emitted until the window is full |
| PatternStrategies.MeanReversionTestCases | Assignment6/Tests/tests.py:124-137 | 95 after [100, 101, 102] with threshold 0.02 buys, and 105 sells |
| Indicators.NewEngine | ProjectTradingSystem/indicator_engine.py:6-16 | a new engine has an empty buffer and no last price, EMA or ATR |
| Indicators.EmaUpdate | ProjectTradingSystem/indicator_engine.py:26-30 | the first price seeds the average; afterwards the new average lies between the previous average and the new price |
| Indicators.AtrUpdate | ProjectTradingSystem/indicator_engine.py:37-50 | the last price always becomes the new price; the first price leaves the ATR unset; the second seeds it with the absolute change |
| Indicators.OnPrice | ProjectTradingSystem/indicator_engine.py:18-35 | after a price, the buffer holds the last `maxlen` prices and all three EMAs are set |
| Indicators.Ranges | ProjectTradingSystem/indicator_engine.py:42 | the true ranges of a price list are one fewer than its prices (none for under two) and never negative |
| Indicators.EmaStep | ProjectTradingSystem/indicator_engine.py:26-35 | the EMA of a list extended by one price is one update step applied to the EMA of the list |
| Indicators.FeedBuffer | ProjectTradingSystem/indicator_engine.py:6-43 | after a fresh engine sees a stream, the buffer is its last `maxlen` prices and the last price is the stream's latest |
| Indicators.FeedEmas | ProjectTradingSystem/indicator_engine.py:26-35 | after a fresh engine sees a stream, each EMA is the exponential fold of the whole stream with its period (9, 21, 50), not of the buffer |
| Indicators.AtrStep | ProjectTradingSystem/indicator_engine.py:37-50 | one price extends the ATR, as the period-14 fold of the true ranges, by one step |
| Indicators.AtrIsEma | ProjectTradingSystem/indicator_engine.py:42-50 | once a price was seen, the ATR update is the period-14 EMA update on the new true range (seeding when unset) |
| Indicators.FeedAtr | ProjectTradingSystem/indicator_engine.py:37-50 | after a fresh engine sees a stream, the ATR is the period-14 exponential fold of the stream's true ranges |
| Indicators.EmaWithinRange | ProjectTradingSystem/indicator_engine.py:26-35 | each EMA stays between the lowest and highest price seen |
| Indicators.AtrNonNegative | ProjectTradingSystem/indicator_engine.py:37-50 | the ATR is unset exactly before the second price and never negative afterwards |
| Indicators.HighN | ProjectTradingSystem/indicator_engine.py:52-55 | None exactly when fewer than n prices are buffered; otherwise one of the last n prices that no other of them exceeds |
| Indicators.LowN | ProjectTradingSystem/indicator_engine.py:57-60 | None exactly when fewer than n prices are buffered; otherwise one of the last n prices that none of them undercuts |
| Indicators.FreshPriceInsideRange | ProjectTradingSystem/indicator_engine.py:18-60 | right after a price is fed, it is never above `high_n` nor below `low_n` for any n, since the buffer already holds it |
| Regimes.NextHistory | ProjectTradingSystem/regime_detector.py:12-27 | the ATR history takes the current ATR only when it is present and non-zero, and never holds more than 50 values |
| Regimes.Assess | ProjectTradingSystem/regime_detector.py:20-82 | no contract of its own: the criteria `detect` computes for a tick; `Regimes.Classify` states the regime they give and `Regimes.Detect` that `detect` returns it |
| Regimes.Classify | ProjectTradingSystem/regime_detector.py:42-92 | the 3/3/2, 4/2/1 and 3/2/2 weighted scores against 5 with priority BREAKOUT, REVERSAL, TREND, NEUTRAL are the same as: BREAKOUT exactly when at least two breakout criteria hold; REVERSAL exactly when not that but an EMA cross is confirmed by a swing break or an ATR spike-and-drop; TREND exactly when neither but the EMAs are strictly ordered and the move is confirmed; otherwise NEUTRAL |
| Regimes.Detect | ProjectTradingSystem/regime_detector.py:15-99 | None and no state change exactly when some EMA is missing; otherwise the regime classified from this tick's criteria, with the previous EMA9, EMA21 and ATR becoming the engine's current ones and the ATR history updated |
| Regimes.PipelineCompatible | ProjectTradingSystem/symbol_state.py:16-31 | feeding each price to the engine and then the detector keeps them in the relation where no None is compared with a number, and keeps the ATR history within 50 |
| Regimes.TrendStrategy | ProjectTradingSystem/strategies/trend_strategy.py:11-43 | only ever BUY (the bearish branch also says BUY), exactly when all EMAs are non-zero and either bullishly ordered with the price at or above EMA9 or bearishly ordered with the price at or below it |
| Regimes.ReversalStrategy | ProjectTradingSystem/strategies/reversal_strategy.py:11-41 | only ever BUY, exactly when EMA9 and EMA21 are non-zero, 20 prices are buffered, and EMA9 crossed above EMA21 with the price above the 20-bar high, or crossed below with the price below the 20-bar low |
| Regimes.BreakoutStrategy | ProjectTradingSystem/strategies/breakout_strategy.py:11-42 | with 20 prices buffered and an ATR above 1.3 times the ATR mean: BUY exactly when the price is above the 20-bar high, otherwise SELL exactly when it is below the 20-bar low; never HOLD |
| Regimes.FreshPriceNeverBreaks | ProjectTradingSystem/symbol_state.py:24-40 | because the engine has already buffered the current price, the breakout and reversal strategies never signal on it |
| Regimes.RouteAsWritten | ProjectTradingSystem/strategies/strategy_router.py:17-44 | as written, REVERSAL always raises (unexpected `price=` keyword); BREAKOUT and TREND raise exactly when their strategy reaches `mdp.price` on the bare float; every other path returns None |
| Regimes.RouterNeverSignalsAsWritten | ProjectTradingSystem/strategies/strategy_router.py:17-44 | as written, the router never returns a BUY or SELL for any regime, price or engine |
| Regimes.Route | ProjectTradingSystem/strategies/strategy_router.py:17-44 | corrected: NEUTRAL and no regime give nothing; only BREAKOUT can SELL; every other signal is a BUY |
| Regimes.RouterSignalsWhenCorrected | ProjectTradingSystem/strategies/strategy_router.py:31-32 | an uptrend with the price above EMA9 makes the router as written raise and the corrected router buy |
| Regimes.RouteDispatches | ProjectTradingSystem/strategies/strategy_router.py:26-44 | the corrected router hands BREAKOUT, TREND and REVERSAL to their own strategies, passing the previous EMAs unchanged to the reversal strategy |
| FillAccounting.ResetState | ProjectTradingSystem/backtester.py:108-122 | after a reset the accounting invariant holds with all capital in cash, no position, no open trade and no completed trades |
| FillAccounting.BuyFill | ProjectTradingSystem/backtester.py:183-193 | a BUY adds its quantity to the position and pays for it in cash; the new entry price is the quantity-weighted average of the old entry and the fill price; a trade opens when the position was flat; realized profit and trades are unchanged |
| FillAccounting.SellFill | ProjectTradingSystem/backtester.py:194-213 | a SELL closes min(qty, position): nothing changes when that is 0; otherwise cash receives the proceeds, the gain over the average entry is realized and recorded as one completed trade (opened at the open time, or now if none), and a return to flat clears the entry price and open time |
| FillAccounting.HandleFill | ProjectTradingSystem/backtester.py:168-212 | a non-positive quantity changes nothing; "BUY" buys; any other side sells |
| FillAccounting.FillKeepsBalance | ProjectTradingSystem/backtester.py:168-212 | every fill keeps the accounting invariant: the position is never short, cash plus the position at its average entry equals the capital plus realized profit, and realized profit is the sum of the completed trades' profits |
| FillAccounting.FillsKeepBalance | ProjectTradingSystem/backtester.py:108-212 | after a reset and any sequence of fills the accounting invariant holds |
| FillAccounting.RoundTrip | ProjectTradingSystem/backtester.py:168-212 | from flat, buying q at p1 and selling q at p2 returns to flat with (p2 - p1) * q added to cash and realized profit, recorded as one trade opened at the buy |
| FillAccounting.Split | ProjectTradingSystem/backtester.py:428 | splitting at underscores gives at least one piece and no piece contains an underscore |
| FillAccounting.NonEmpty | ProjectTradingSystem/backtester.py:428 | filtering keeps only non-empty pieces, each taken from the input |
| FillAccounting.JoinSplit | ProjectTradingSystem/backtester.py:428 | joining the pieces of a split with underscores gives back the original string |
| FillAccounting.SanitizeClean | ProjectTradingSystem/backtester.py:417-429 | every sanitised label is non-empty, made of lower-case letters, digits and single inner underscores |
| FillAccounting.SanitizeFixesClean | ProjectTradingSystem/backtester.py:417-429 | a label that is already clean is left unchanged |
| FillAccounting.SanitizeIdempotent | ProjectTradingSystem/backtester.py:417-429 | sanitising twice is the same as sanitising once |
| FillAccounting.StrategyFromName | ProjectTradingSystem/backtester.py:432-459 | a strategy is found exactly when the lower-cased name is one of the nine table keys; otherwise the error is "Unknown strategy '<name>'" with the name as given |
| FillAccounting.StrategyNameCaseInsensitive | ProjectTradingSystem/backtester.py:445-459 | names equal up to ASCII case select the same strategy; "MA" and "ZScore" resolve and "rsi" does not |
| Brokerage.MarketOrder | Assignment5/backtester/broker.py:9-24 | zero, missing or fractional quantities are rejected first; a buy fails exactly when cash is below qty * price and otherwise adds qty and pays for it; a sell fails exactly when the position is not positive and otherwise subtracts qty (possibly going short) and receives qty * price; any other side is rejected; a failure leaves the broker unchanged |
| Brokerage.WholeQuantity | Assignment5/backtester/broker.py:10 | an integral quantity is valid exactly when it is non-zero |
| Brokerage.BuySellRoundTrip | Assignment5/backtester/broker.py:13-22 | an affordable buy of q at p1 followed by a sell of q at p2 restores the position and changes cash by q * (p2 - p1) |
| Brokerage.BrokerScenarios | Assignment5/tests/test_broker.py:6-49 | from 1000 cash: buying 2 at 10 leaves 980 and 2; 200 at 10 is unaffordable; 1.5 or no quantity is invalid; selling with no position fails; "hold" is an invalid side; selling 2 at 20 from 950 and 5 gives 990 and 3 |
| Brokerage.Shifted | Assignment5/backtester/engine.py:10 | the shifted signals have the same length, nothing at the first bar, and each previous bar's signal afterwards |
| Brokerage.Run | Assignment5/backtester/engine.py:9-19 | no contract of its own: `Brokerage.RunPlacesDelayedOrders` states that it places, one unit each, the orders the shifted signals imply, `Brokerage.QuietSignalsNoChange` that quiet signals change nothing, and `Brokerage.DelayedSingleBuy` that a lone buy signal buys at the next bar |
| Brokerage.Place | Assignment5/backtester/engine.py:11-17 | no contract of its own: `Brokerage.RunPlacesDelayedOrders` relates it to the backtest loop, and each step is a `Brokerage.MarketOrder` of one unit |
| Brokerage.Orders | Assignment5/backtester/engine.py:10-19 | the orders implied by the signals up to bar n are at most n |
| Brokerage.RunPlacesDelayedOrders | Assignment5/backtester/engine.py:9-19 | running the engine is exactly placing the delayed order stream: bar t trades one unit on the signal of bar t - 1 (1 buys, -1 sells), the first bar never trades, any other signal places nothing, and the first failed order ends the run |
| Brokerage.QuietSignalsNoChange | Assignment5/tests/test_engine.py:18-46 | signals that are never 1 or -1 (all 0, or all -999) leave cash and position unchanged |
| Brokerage.OneBuyOrders | Assignment5/backtester/engine.py:10-19 | a lone 1 at bar i is one buy order at bar i + 1's price |
| Brokerage.DelayedSingleBuy | Assignment5/tests/test_engine.py:7-15 | with a lone buy signal at bar i, the run ends with one more unit bought at bar i + 1's price |
| MarketSimulation.Added | Assignment2/engine.py:94-98 | adding an order nets the quantities, keeps the price the quantity-weighted average of the old holding and the order (0 when flat), and appends the order |
| MarketSimulation.ExecuteOrder | Assignment2/engine.py:78-108 | a zero, fractional or incomplete order is marked "CANCELLED" in its symbol and changes nothing; otherwise (with at least one retry) it is marked FILLED, its symbol's holding absorbs it, and cash pays quantity * price plus the proportional cost; with no retries only an existing holding is updated in place and cash is unchanged; no other symbol changes |
| MarketSimulation.InsertByCount | Assignment2/engine.py:136 | one insertion step of the stable descending sort lengthens the ranking by one |
| MarketSimulation.RankActions | Assignment2/engine.py:133-136 | the ranking lists the three actions |
| MarketSimulation.Combine | Assignment2/engine.py:133-140 | no contract of its own: `MarketSimulation.CombineIsPlurality` states its result, a strict plurality of BUY or SELL, otherwise HOLD |
| MarketSimulation.CombineIsPlurality | Assignment2/engine.py:133-140 | the combined action is BUY or SELL exactly when it is counted strictly more often than each of the other two actions; any tie for first gives HOLD |
| MarketSimulation.BuyPosition | Assignment2/engine.py:169-172 | a BUY size fails (division by zero) exactly when the cost-adjusted price is 0, and is otherwise the smaller of the volume cap and the cash floor-divided by the cost-adjusted price |
| MarketSimulation.PositionSize | Assignment2/engine.py:167-176 | BUY sizes as above; SELL sells the whole holding when it is positive; otherwise the size is 0 |
| MarketSimulation.FeeInclusive | Assignment2/engine.py:104-171 | the fee-inclusive cost of a non-negative purchase is its size times the cost-adjusted price |
| MarketSimulation.BuySizeAffordable | Assignment2/engine.py:167-172 | with non-negative cash, cost and volume cap and a positive price, a BUY size is a whole number within the volume cap whose cost including fees is at most the cash |
| MarketSimulation.BuyWithin | Assignment2/engine.py:170-172 | for a non-negative cap and cash and a positive cost-adjusted price, the BUY size is a whole number within the cap that the cash covers, fees included |
| MarketSimulation.SimStep | Assignment2/engine.py:119-152 | one symbol's work for a bar changes no other symbol's holding |
| MarketSimulation.SellLiquidates | Assignment2/engine.py:143-175 | a SELL plurality with a positive whole holding sells it all: the holding drops to 0 with average price 0 and the proceeds net of cost are credited; without a holding nothing happens |
| Commands.ExecuteSignal | Assignment6/patterns/command.py:20-28 | no contract of its own: `Commands.Execute` states that executing moves the symbol's position by the signal's signed quantity, and `Commands.UndoInvertsExecute` that `Commands.UndoSignal` reverses it |
| Commands.UndoSignal | Assignment6/patterns/command.py:30-39 | no contract of its own: `Commands.Undo` states that undoing moves the position by the negated quantity, and `Commands.UndoInvertsExecute` that it inverts `Commands.ExecuteSignal` in both directions |
| Commands.BuyShares | Assignment6/patterns/command.py:92-96 | buying adds the quantity to the symbol's position (absent counts as 0) and changes no other symbol |
| Commands.SellShares | Assignment6/patterns/command.py:98-102 | selling subtracts the quantity from the symbol's position (absent counts as 0, so it may go negative) and changes no other symbol |
| Commands.Execute | Assignment6/patterns/command.py:20-49 | executing a command moves every symbol's position by the command's signed delta: +q for an order BUY, -q for an order SELL, nothing for any other action, and the opposite of its original for an undo command |
| Commands.Undo | Assignment6/patterns/command.py:30-53 | undoing a command moves every position by minus the command's delta |
| Commands.UndoInvertsExecute | Assignment6/patterns/command.py:20-53 | undo after execute, and execute after undo, restore every symbol's position |
| Commands.UndoCommandIsInverse | Assignment6/patterns/command.py:43-53 | the undo command's execute is the original's undo, and its undo the original's execute |
| Commands.ExecuteCommand | Assignment6/patterns/command.py:62-66 | executing through the invoker runs the command, appends it to the history and empties the redo stack |
| Commands.UndoLast | Assignment6/patterns/command.py:68-75 | with an empty history nothing changes; otherwise the newest command is popped, undone and pushed onto the redo stack |
| Commands.RedoLast | Assignment6/patterns/command.py:77-84 | with an empty redo stack nothing changes; otherwise the newest undone command is popped, executed and pushed back onto the history |
| Commands.InvokerReplays | Assignment6/patterns/command.py:57-84 | executing, undoing and redoing all keep the positions equal to the starting positions plus the net effect of the commands in the history |
| Commands.UndoAfterExecute | Assignment6/patterns/command.py:62-75 | undo straight after execute restores the history and every position, and leaves exactly that command to redo |
| Commands.BuyUndoRedoExample | Assignment6/Tests/tests.py:104-117 | BUY 40 AAPL, undo, redo gives positions 40, 0, 40 |
| PortfolioTree.Value | Assignment6/patterns/composite.py:61-64 | no contract of its own: `PortfolioTree.AddPositionValue`, `PortfolioTree.AddSubValue` and `PortfolioTree.RemoveLowersValue` state how each operation moves it |
| PortfolioTree.Values | Assignment6/patterns/composite.py:24-62 | the values summed for a group are quantity times price for each of its own positions, one per position |
| PortfolioTree.SameSubsSameValue | Assignment6/patterns/composite.py:61-64 | the sub-portfolios' share of a group's value depends only on the sub-portfolios |
| PortfolioTree.AddPosition | Assignment6/patterns/composite.py:39-40 | adding a position appends it to the group's own positions and leaves the sub-portfolios alone |
| PortfolioTree.AddSub | Assignment6/patterns/composite.py:58-59 | adding a sub-portfolio appends it and leaves the own positions alone |
| PortfolioTree.AddPositionValue | Assignment6/patterns/composite.py:39-70 | adding a position raises the group's value by its quantity times price and lists its symbol after the group's own symbols, before those of the sub-portfolios |
| PortfolioTree.AddSubValue | Assignment6/patterns/composite.py:58-70 | adding a sub-portfolio raises the group's value by the sub-portfolio's whole value and lists its symbols after everything already listed |
| PortfolioTree.FirstMatch | Assignment6/patterns/composite.py:44-45 | the index found is the first own position with the symbol; none is found exactly when no own position has it |
| PortfolioTree.RemovePosition | Assignment6/patterns/composite.py:42-56 | True exactly when an own position has the symbol; then the first such position is removed when the quantity covers it, and otherwise reduced by the quantity; False leaves the group unchanged; sub-portfolios are never searched or changed |
| PortfolioTree.RemoveLowersValue | Assignment6/patterns/composite.py:42-64 | a removal lowers the group's value by the position's price times the quantity actually sold: the requested quantity, capped at what the position holds |
| PortfolioTree.BuildDescribe | Assignment6/patterns/composite.py:73-84 | building from a group's dictionary description gives the same group back |
| PortfolioTree.DescribeBuild | Assignment6/patterns/composite.py:73-84 | describing the built group recovers the dictionary: names, owners, positions and nesting are mirrored exactly |
| PortfolioBuilder.NewBuilder | Assignment6/patterns/builder.py:11-15 | a fresh builder has the given name, no positions, no sub-builders and owner "" |
| PortfolioBuilder.AddPosition | Assignment6/patterns/builder.py:17-18 | adding a position appends one (symbol, quantity, price) entry and changes nothing else |
| PortfolioBuilder.SetOwner | Assignment6/patterns/builder.py:20-21 | setting the owner replaces it (the last call wins) and changes nothing else |
| PortfolioBuilder.AddSubBuilder | Assignment6/patterns/builder.py:23-24 | adding a sub-builder appends it and changes nothing else |
| PortfolioBuilder.BuildRoundTrip | Assignment6/patterns/builder.py:26-28 | building loses nothing: the builder tree can be recovered from the built portfolio |
| PortfolioBuilder.RebuildRoundTrip | Assignment6/patterns/builder.py:4-28 | every portfolio tree is the build of some builder tree |
| PortfolioBuilder.BuildKeepsEntries | Assignment6/patterns/builder.py:26-28 | the built tree holds exactly as many positions as were added anywhere in the builder tree |
| PortfolioBuilder.BuildExample | Assignment6/patterns/builder.py:11-28 | a builder named "Main" with AAPL 10 @ 150 and MSFT 5 @ 300 and owner "Ann" builds exactly that portfolio with no sub-portfolios |
| Observers.Attach | Assignment6/patterns/observer.py:28-36 | an observer is appended only when not already attached; afterwards it is attached, the others keep their order, and a duplicate-free list stays duplicate-free |
| Observers.IndexOf | Assignment6/patterns/observer.py:45-46 | `list.remove` acts on the first occurrence of the observer |
| Observers.Detach | Assignment6/patterns/observer.py:38-46 | an unattached observer changes nothing; otherwise its first occurrence is removed and everything else keeps its order |
| Observers.DetachRemoves | Assignment6/patterns/observer.py:38-46 | in a duplicate-free list, a detached observer is gone and exactly the others remain |
| Observers.NeverDuplicated | Assignment6/patterns/observer.py:24-46 | whatever attach and detach calls are made from a fresh publisher, no observer is ever listed twice |
| Observers.Update | Assignment6/patterns/observer.py:71-114 | an update raises KeyError exactly when a key it reads is missing; otherwise a logger gains exactly one line, and an alert gains exactly one line when the quantity (0 if absent) exceeds its threshold and is unchanged otherwise |
| Observers.Notify | Assignment6/patterns/observer.py:48-56 | its requires is the source's assumption that every attached observer exists; it notifies the attached list in order, and `Observers.NotifyCallsInOrder`, `Observers.NotifyErrorIffRaises` and `Observers.NotifyUpdatesEachOnce` state its outcome, `Observers.ObserverScenario` the test's run |
| Observers.NotifyFrom | Assignment6/patterns/observer.py:48-56 | notifying never adds or drops observers from the registry |
| Observers.UpdateKeepsKind | Assignment6/patterns/observer.py:71-114 | an update never changes which signals an observer raises on |
| Observers.NotifyCallsInOrder | Assignment6/patterns/observer.py:55-56 | `update` is called on a prefix of the list, in list order, and on all of it when nothing raised |
| Observers.NotifyErrorIffRaises | Assignment6/patterns/observer.py:55-56 | notification runs to the end exactly when no attached observer raises on the signal |
| Observers.NotifyStopsAtRaiser | Assignment6/patterns/observer.py:55-56 | when notification stops early, the last observer called is one that raises |
| Observers.NotifyLeavesOthers | Assignment6/patterns/observer.py:55-56 | observers that are not attached are untouched by a notification |
| Observers.NotifyUpdatesEachOnce | Assignment6/patterns/observer.py:55-56 | with no duplicates and no raising observer, every attached observer is updated exactly once and the rest are untouched |
| Observers.CompleteSignalNeverRaises | Assignment6/patterns/observer.py:79-112 | a signal with action, symbol and quantity never raises, whichever observer receives it |
| Observers.LargeTradeLine | Assignment6/patterns/observer.py:112 | the alert line for a SELL of 100 TSLA is "Large Trade Alert: SELL 100 shares of TSLA" |
| Observers.AttachDetachScenario | Assignment6/Tests/tests.py:70-93 | attaching the logger then the alert lists both in that order; detaching the logger leaves only the alert |
| Observers.ObserverScenario | Assignment6/Tests/tests.py:70-93 | with a logger and an alert of threshold 50 attached in that order, a SELL of 100 TSLA reaches both without raising, logs one line and raises one alert; detaching the logger leaves only the alert |
| MetricsAggregation.AllDrawdowns | Assignment7/portfolio.py:58 | the drawdowns taking part are the positions' drawdowns followed by the sub-aggregates' maximum drawdowns |
| MetricsAggregation.WeightedMean | Assignment7/portfolio.py:56 | the weighted sum divided by the total, or 0 when the total is 0 |
| MetricsAggregation.Worst | Assignment7/portfolio.py:59 | 0 for no drawdowns, otherwise one of them that no other undercuts |
| MetricsAggregation.Aggregate | Assignment7/portfolio.py:51-60 | an omitted sub-aggregate list counts as empty; the total is the positions' and sub-aggregates' values summed; the volatility is their value-weighted mean (0 for a zero total); the drawdown is the worst of all drawdowns (0 when there are none) |
| MetricsAggregation.OmittedSubsAreEmpty | Assignment7/portfolio.py:52 | leaving out the sub-aggregates and passing an empty list give the same result |
| MetricsAggregation.VolatilityWithin | Assignment7/portfolio.py:53-56 | with non-negative values and a positive total, the aggregate volatility lies between the smallest and largest volatility that went in |
| MetricsAggregation.NestedDrawdown | Assignment7/portfolio.py:51-60 | the worst drawdown is the same whether a non-empty group of positions is nested as a sub-portfolio or flattened into its parent |
| MetricsAggregation.NestedTotals | Assignment7/portfolio.py:51-60 | the total value and aggregate volatility are the same whether a group with a non-zero total is nested or flattened |
| MetricsAggregation.NestingIsConsistent | Assignment7/portfolio.py:51-60 | aggregating a non-empty group with a non-zero total as a sub-portfolio first gives exactly the same aggregate as aggregating its positions directly |

## Left out

- Sockets, server loops, `sendall`, threads and process orchestration. Each frame handed to the pipeline is a parameter.
- JSON and UTF-8 decoding of frames. The decoder is a function parameter of the pipeline, so malformed JSON is an outcome of that function.
- The randomness of the matching engine. The draw is an explicit value constrained to `randint`'s range; the probabilities of each outcome are not modelled.
- The shared-memory `Lock` and the creation, closing and unlinking of `SharedMemory`.
- The pickle encoding of the metadata record. It is an abstract serialiser with a decoding inverse.
- The truncation of symbols to the ten-byte `S10` field of the shared array.
- The heap mechanics of the order book. Each side is a bag of (price key, sequence, id, version) entries. The best entry is the least entry whose version is still current, and popping stale entries is not modelled, since a stale entry never becomes current again.
- Logging, log files and `print`. Log calls are no-ops. A timestamp a record needs is a parameter.
- Floating-point rounding, NaN and infinities. Prices are exact reals.
- The rounding `process_portfolio` applies to its output (Assignment7/portfolio.py:70-87). The aggregation lemmas are about the unrounded `aggregate_metrics` result.
- OrderIntake.FromDict: `int()` and `float()` on a string are modelled for ASCII digits only. Python also accepts other Unicode decimal digits, and `float()` accepts "inf", "infinity" and "nan" in any case; the model refuses those strings.
- OrderIntake.Validated: the same limits as `OrderIntake.FromDict` apply to the qty and price strings.
- MovingAverages.NaiveSignals: requires 1 ≤ s ≤ l, as do the other naive and MAC lemmas. With s = 0 the naive strategy divides by zero, and with s > l it reads the short window through negative indices that wrap around.
- MovingAverages.MacMatchesReference: requires 1 ≤ s ≤ l, for the same reasons as `MovingAverages.NaiveSignals`.
- MovingAverages.WindowedStep: requires both windows of at least one price, through `WindowedInv`, as do the other windowed members. With s = 0 the source divides by zero on the first tick after warm-up, and with l = 0 on the first tick.
- MovingAverages.WindowedRun: requires both windows of at least one price, for the same reason as `MovingAverages.WindowedStep`.
- MovingAverages.WindowedMatchesReference: requires 1 ≤ s ≤ l. With s > l the source's short deque holds all l prices and their sum is divided by s, which is not the short average of the reference.
- MovingAverages.MacAgreesWithWindowed: requires 1 ≤ s ≤ l, the range where both strategies are proved to follow the reference.
- SharedPrices.Create: an empty symbol list gives an empty table, where `SharedMemory(size=0)` raises ValueError.
- FixParser.Parse: the field delimiter is a single character. The source accepts any delimiter string and raises ValueError for an empty one.
- The sentiment strategy of assignment 8 (Assignment8/strategy.py:105-112). Its `generate_signals` always returns None, so there is nothing to model.
- The non-ASCII behaviour of Python's `str.lower`, `str.upper` and `str.isalnum`. Only the ASCII cases are modelled.
- The NaN skipping of the backtester, net asset value tracking, `compute_performance_metrics`, plotting, CSV/JSON output and argument parsing. These are library-bound reporting around the fill accounting.
- `StatisticalSignalStrategy` and the volatility-breakout strategy. Both rest on a standard deviation (square root).
- Data loading and the market simulation's net asset value series. These use pandas frames.
- The portfolio builder's aliasing: a builder hands its own `positions` list to every portfolio it builds (Assignment6/patterns/builder.py:28), so those portfolios share one list and a later `add_position` changes all of them. The model's builders and portfolios are values.
- The degenerate RSI strategy and the patterns factory. Each only ever returns a constant.
- StreamingStrategies.NewCrossover: requires a short window of at least one bar. With a zero short window the empty short deque already counts as full on the first bar, and `popleft()` on it raises IndexError (ProjectTradingSystem/strategy.py:67-68).
- Indicators.HighN: requires n ≥ 1, because Python's `[-0:]` would select the whole buffer rather than nothing.
- Indicators.LowN: requires n ≥ 1, for the same reason as `Indicators.HighN`.
- Regimes.Detect: requires the detector to be compatible with the engine it reads. A saved previous EMA9 must come with a saved previous EMA21, and a recorded ATR (a non-empty history or a non-zero previous ATR) requires the engine to have an ATR14. Otherwise Python raises a TypeError comparing None with a number. `Regimes.PipelineCompatible` shows the pipeline always keeps that condition.
- Regimes.ReversalStrategy: the previous EMAs are reals, so the TypeError the source raises on the first bar, when they are still None, is not modelled.
- Regimes.BreakoutStrategy: the historical ATR mean is a parameter. The engine has no `atr14_history_mean` attribute, so the source would raise AttributeError there.

## Findings

| source | as written | input that shows it | evidently intended | confidence | as-written member | corrected member |
|---|---|---|---|---|---|---|
| Assignment6/patterns/strategy.py:28-49 | the tick's price is appended to the window before the window's maximum and minimum are taken, so the price can never exceed the maximum or undercut the minimum and no breakout is ever reported | window [100, 101, 102], lookback 3, threshold 0.03, tick 106: no signal, where Assignment6/Tests/tests.py:139-147 expects BUY | compare the price with the extremes of the previous `lookback_window` prices, then record it | not executed | PatternStrategies.BreakoutNeverFires | PatternStrategies.BreakoutTestPasses |
| ProjectTradingSystem/strategies/strategy_router.py:26-41 | the router passes the bare price to strategies that read `mdp.price`, and calls the reversal strategy with a `price=` keyword it does not accept, so REVERSAL always raises and TREND or BREAKOUT raise whenever they get past their first checks | TREND regime, EMA9 12 > EMA21 11 > EMA50 10, price 12.5: the router as written raises instead of buying | hand each strategy the price in the form it reads | not executed | Regimes.RouterNeverSignalsAsWritten | Regimes.RouterSignalsWhenCorrected |

