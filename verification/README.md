# A verified model of the exchange

The repository is a small exchange: a limit-order-book matching engine, a three-thread pipeline around it, a FIX text
codec with a typed B3 codec over it, and a fixed-size string that keys the books. This project models those parts in
Dafny and proves what they promise. Everything is a proof; nothing was executed.

## How the parts fit

* `Types`, `PriceTimeQueue`, `FlatEngine` say what the engine does in the simplest terms: each side of a book is one
  queue in price-time order, and matching takes the head while quantity remains and the head crosses. `Step` handles one
  request, `Run` a sequence of them. Every accepted order carries an instance number, since keys may be reused.
* `FlatInvariant`, `Replica`, `Ledger`, `Priority`, `Lifecycle`, `Reports` prove properties of every run of that engine.
* `Terms` gives each accepted order the terms its own request asked for and holds every trade, report and resting order
  of a run against them. `Answers` says what the engine answers to each request in each state a run can reach, in terms
  of the resting orders and the request's own fields.
* `LevelStore`, `LevelOps`, `StoreSteps`, `MatchProgress`, `EngineView`, `HandlerSteps` describe the engine's memory as
  it is laid out (nodes, levels with FIFOs and 64-bit running totals, the index) and show each in-place step to be a step
  of the flat engine.
* `MatchingEngine` has the classes: nodes in a pool, side maps of levels updated in place, the identity index, the level
  walk that erases its consumed prefix once at the end, the four handlers. `Engine.Valid` says that the books, the index
  and both streams are those of the flat engine after the same requests, and `Engine.Send` keeps it, so every
  theorem about `Run` is a theorem about the engine.
* `Pipeline` is the concurrent protocol: three event loops, two queues, staged start and stop, any interleaving;
  `Service` bounds how long a running loop leaves its queue waiting.
* `Decimal`, `FixText`, `B3Spec`, `B3Codec` are the codecs; `FixSyntax` and `WireFormat` say which texts they write and
  read, and with which errors; `FixedStrings` is the fixed-size string.
* `Counterexamples` holds concrete inputs on which an expected property fails.

## What the code does that one might not expect

* A replace naming an unknown symbol has withdrawn the original order by the time it is rejected. It is the only
  request whose reject comes with a change of state (`Reports.RejectLeavesUnchanged`).
* A replace that reuses its own id is rejected as a duplicate, where docs/engine-specs.md speaks of another live order
  (`Reports.ReplaceOwnId`).
* A cancel that misses is commented as silent in the source; it emits a reject, and so does the model.
* The average price of a report is the last price; it is the average exactly when the best opposite level can serve
  the order whole or nothing beyond that level is within its limit (`Reports.AvgPxIsAverage`).
* A book update states a true quantity exactly when the level's total is below 2^64 (`Replica.ReplicaTrue`).
* A maker's fill emits no report, so the last report of a resting order is stale once it was hit
  (`Lifecycle.LastReported`).
* Unknown-symbol and unknown-order rejects share a code on the wire (`B3Codec.EventRoundTrip`).

## Model

| member | source | states |
|---|---|---|
| `PriceTimeQueue.MatchIsMatch` | src/matching_engine/matching_engine/matching.hpp:84-163 | a match fills a prefix of the queue in order, every maker but the last in full, never at a price above the limit of a buy or below that of a sell, and stops only when the taker is spent, the queue is empty or its head is outside the limit |
| `PriceTimeQueue.IsMatchUnique` | src/matching_engine/matching_engine/matching.hpp:84-163 | that description has one solution, so it determines trades, residual and remaining queue |
| `PriceTimeQueue.InsertSorted` | src/matching_engine/matching_engine/order_book.hpp:164-172 | placing a later order keeps price-time order |
| `FlatInvariant.StepInv` | src/matching_engine/src/engine.cpp:114-381 | every request keeps queues in price-time order, every resting order live, priced and indexed under its own key, every index entry resting, and every book uncrossed |
| `FlatInvariant.RunInv` | src/matching_engine/src/engine.cpp:114-381 | so does every run |
| `FlatInvariant.SettleUncrossed` | src/matching_engine/src/engine.cpp:142-189 | matching and then resting the residual never leaves a crossed book |
| `FlatInvariant.LookupExact` | src/matching_engine/src/engine.cpp:256-263 | a live order is found by its key at its own place, so the lookups of the handlers cannot fail |
| `Replica.StepTops` | src/matching_engine/src/engine.cpp:191-203 | the updates a request emits turn the true tops before it into the true tops after it |
| `Replica.ReplicaExact` | src/matching_engine/src/engine.cpp:433-455 | a subscriber keeping the last update per side, cleared on flush, holds exactly the true tops after every run |
| `Replica.ReplicaTrue` | src/matching_engine/src/engine.cpp:433-455 | from the start: no top exactly on empty sides, the price is the best one, the quantity is true if and only if it fits in 64 bits |
| `Ledger.RunAccounted` | src/matching_engine/matching_engine/matching.hpp:96-113 | after any run, for every resting order, order quantity minus leaves is the sum of all trades emitted for it, as taker and as maker |
| `Ledger.ReportsTrue` | src/matching_engine/src/engine.cpp:391-407 | every report of every run states as cumulative quantity what its order has traded |
| `Ledger.Conservation` | src/matching_engine/src/engine.cpp:151-189 | over any run, quantity resting before plus quantity accepted equals quantity resting after plus twice what traded plus what cancels, replaces, flushes and dropped remainders removed |
| `Lifecycle.LifeOfInstance` | src/matching_engine/src/engine.cpp:114-381 | over any run an instance is reported on exactly when it was accepted: one acknowledgement, then at most one trade report, then at most one cancellation, and nothing more |
| `Lifecycle.LastReported` | src/matching_engine/src/engine.cpp:230-241 | the leaves last reported for a resting order exceed its true leaves by what it traded while resting, so they are true if and only if no trade of the run hit it |
| `Priority.StepServes` | src/matching_engine/matching_engine/matching.hpp:91-112 | when an order is hit, every order ahead of it was filled to the end before, or the request itself took it out |
| `Priority.PriceTimePriority` | src/matching_engine/matching_engine/matching.hpp:137-154 | of two orders resting together, after any run the later one is never hit before the earlier one is filled to the end or taken out |
| `Terms.TradeOfRun` | src/matching_engine/matching_engine/matching.hpp:39-83 | every trade of every run is between an earlier order, at that order's price, and a later one of the other side of the same book; the later one's limit, if it has one, allows the price; buyer and seller are the ids of the order that buys and of the one that sells; the security id is the later one's |
| `Terms.ReportOfRun` | src/matching_engine/src/engine.cpp:383-416 | every report of every run repeats each term that its order asked for and obeys its kind: an acknowledgement has everything left, a trade report says filled if and only if nothing is, a cancellation names the order it cancels |
| `Terms.RestingOfRun` | src/matching_engine/src/engine.cpp:181-189 | every resting order stands in the book, on the side, at the price, for the quantity and under the key that its own request, new order or replace, asked for |
| `Terms.TradersAsReported` | src/matching_engine/matching_engine/matching.hpp:61-83 | of the two orders of a trade, as the lifecycle stream first acknowledged them, one buys and one sells, and the trade names them so |
| `Answers.AnswerOfRun` | src/matching_engine/src/engine.cpp:114-381 | the complete answer in every reachable state: a cancel unlinks exactly the order with that key; a replace unlinks it and serves the new terms; an accepted order trades with a prefix of the other side, stops only spent, at an empty side or outside its limit, rests only as a priced remainder, behind every order of no worse price; the market data are its trades, then a summary and the other side's top if it traded, then its own side's top if it is now best, and nothing else; a flush empties all in silence |
| `Answers.RejectOfRun` | src/matching_engine/src/engine.cpp:243-349 | a cancel or replace is rejected if and only if the original does not rest, or the new key does, or the new symbol is not configured; the reject is all the lifecycle stream says, echoes the three ids and has that guard's reason and text |
| `Answers.RefusalOfRun` | src/matching_engine/src/engine.cpp:129-137 | a new order is refused as a duplicate if and only if its key rests, else if and only if its symbol is not configured |
| `Answers.OnBookIndexed` | src/matching_engine/src/engine.cpp:207-216 | a key is in the identity index if and only if an order with it rests |
| `Reports.RunNumbered` | src/matching_engine/src/engine.cpp:230-234 | over any run trade ids and exec ids advance one by one in emission order |
| `Reports.NumberedFromOne` | src/matching_engine/matching_engine/engine.hpp:131-132 | from the start the k-th trade and the k-th report carry number k modulo 2^64 |
| `Reports.AcceptWorsening` | src/matching_engine/matching_engine/matching.hpp:137-145 | the trade prices of one order never move back towards the best |
| `Reports.AcceptSummarised` | src/matching_engine/src/engine.cpp:158-169 | the summary after the trades states the last trade's price and the sum of the traded quantities |
| `Reports.AcceptReported` | src/matching_engine/src/engine.cpp:171-178 | the trade report agrees with the trades, its leaves complete the order quantity, and it says filled if and only if nothing is left |
| `Reports.AvgPxIsAverage` | src/matching_engine/src/engine.cpp:411-413 | an order trades if and only if the opposite head is within its limit, and then the reported average price is the volume-weighted one if and only if the best opposite level holds its whole quantity or nothing beyond that level is within its limit |
| `Reports.ReplaceIsCancelThenNew` | src/matching_engine/src/engine.cpp:284-349 | a replace of a resting order under a free key leaves the books, index and market data of a cancel followed by any new order that agrees with it in each of the ten fields, unknown symbols included |
| `Reports.RejectLeavesUnchanged` | src/matching_engine/src/engine.cpp:284-349 | a request's reject means that nothing changed if and only if the request is not a replace of a live order under a free key for an unknown symbol |
| `Reports.LosesAndRejects` | src/matching_engine/src/engine.cpp:305-346 | every such replace is rejected and its original is gone |
| `Reports.ReplaceOwnId` | src/matching_engine/src/engine.cpp:296-303 | a replace under its own id changes nothing and is rejected as a duplicate |
| `Counterexamples.RejectedReplaceLosesOrder` | src/matching_engine/src/engine.cpp:305-346 | a concrete rejected replace after which neither the old nor the new order exists |
| `Counterexamples.AveragePriceIsLast` | src/matching_engine/src/engine.cpp:413 | fills at 10 and 20 reported with average 20 |
| `Counterexamples.TotalWraps` | src/matching_engine/matching_engine/order_book.hpp:164-172 | two resting orders of 2^63 at one price are reported as a level of quantity zero |
| `LevelStore.TakeNode` | src/matching_engine/matching_engine/order_book.hpp:175-189 | unlinking a node keeps nodes, FIFOs and index in agreement and removes exactly its order from the flat queue and the flat index |
| `LevelStore.AddNode` | src/matching_engine/src/engine.cpp:181-189 | linking and indexing a node keeps them in agreement and inserts exactly its order |
| `LevelOps.TotalIsLevelQty` | src/matching_engine/matching_engine/order_book.hpp:39-43 | a level's running total is the flat quantity at its price modulo 2^64 |
| `LevelOps.PlaceIsInsert` | src/matching_engine/matching_engine/order_book.hpp:164-172 | appending to the FIFO of a price level is inserting behind every order of no worse price |
| `StoreSteps.HitStep` | src/matching_engine/matching_engine/matching.hpp:91-113 | one turn of the level loop is one trade of the flat machine, totals kept congruent |
| `StoreSteps.TrimStep` | src/matching_engine/matching_engine/matching.hpp:156-160 | erasing the consumed prefix of levels in one go changes no queue, index entry or total |
| `StoreSteps.TopStep` | src/matching_engine/matching_engine/order_book.hpp:211-219 | the first level's price and total are the flat best price and quantity |
| `MatchProgress.ProgressStep` | src/matching_engine/matching_engine/matching.hpp:91-113 | after each trade, the trades so far followed by the flat match of what is left are the whole flat match |
| `EngineView.WalkEnds` | src/matching_engine/matching_engine/matching.hpp:131-163 | on each exit path of the walk the erased side map, trades and residual are those of the flat match |
| `HandlerSteps.AcceptGives` | src/matching_engine/src/engine.cpp:129-206 | acknowledging, matching, summarising, resting and reporting tops, in this order, gives the flat engine's state and both its streams |
| `HandlerSteps.WithdrawGives` | src/matching_engine/src/engine.cpp:256-272 | unlinking the indexed node is the flat withdrawal of the slot that lookup finds |
| `HandlerSteps.AllDrained` | src/matching_engine/src/engine.cpp:351-381 | once every side is empty no node is live and no key is indexed |
| `MatchingEngine.SideMap.PlaceInto` | src/matching_engine/matching_engine/order_book.hpp:164-172 | the levels after placing a node |
| `MatchingEngine.SideMap.CancelFrom` | src/matching_engine/matching_engine/order_book.hpp:175-189 | the levels after unlinking a linked node, its level erased when it was the last |
| `MatchingEngine.Engine.constructor` | src/matching_engine/src/engine.cpp:27-42 | one empty book per configured symbol, and validity |
| `MatchingEngine.Engine.ReleaseNode` | src/matching_engine/src/engine.cpp:86-91 | demands a live node that no FIFO links, so none is released twice or while linked |
| `MatchingEngine.Engine.TradeWithFront` | src/matching_engine/matching_engine/matching.hpp:91-113 | one turn of the level loop in place: the trade emitted, taker, maker and total reduced, a filled maker popped and released; `Terms.TradeOfRun` says who the trade names |
| `MatchingEngine.Engine.ConsumeLevel` | src/matching_engine/matching_engine/matching.hpp:84-117 | trades counted, all at the level's price, until the FIFO is empty or the taker spent |
| `MatchingEngine.Engine.Match` | src/matching_engine/matching_engine/matching.hpp:130-163 | the walk with its bulk erase refines the flat match: same trades in order, same makers released, same residual, same book, right count and last price |
| `MatchingEngine.Engine.HandleNewOrderImpl` | src/matching_engine/src/engine.cpp:129-206 | accepted as the flat engine does, or a named reject with nothing done |
| `MatchingEngine.Engine.HandleCancel` | src/matching_engine/src/engine.cpp:243-282 | state and streams as the flat cancel, whose answers `Answers` gives |
| `MatchingEngine.Engine.HandleReplace` | src/matching_engine/src/engine.cpp:284-349 | state and streams as the flat replace, whose answers and three rejects `Answers` gives |
| `MatchingEngine.Engine.HandleFlush` | src/matching_engine/src/engine.cpp:351-381 | every queue, the index and the pool empty, books kept, nothing emitted |
| `MatchingEngine.Engine.Send` | src/matching_engine/src/engine.cpp:66-69 | keeps validity: books, index and both streams stay those of the flat run over all requests so far |
| `MatchingEngine.Engine.IndexIsPool` | src/matching_engine/src/engine.cpp:181-189 | between requests the index and the pool hold the same nodes, each under its own key |
| `MatchingEngine.Engine.LinkedIsPool` | src/matching_engine/matching_engine/order_book.hpp:164-189 | a node is linked in a side if and only if it is live and belongs there, once, in the level of its price; levels are strictly sorted and none is empty |
| `MatchingEngine.Engine.LevelTotals` | src/matching_engine/matching_engine/order_book.hpp:34-43 | between requests every level's total is the sum of what its nodes have left modulo 2^64, and the sum itself if and only if that fits |
| `MatchingEngine.Engine.TopsAreExact` | src/matching_engine/matching_engine/order_book.hpp:193-219 | the top a book reports is that of the flat run, and best bid is below best ask |
| `Pipeline.AliveKept` | src/lab/lab/event_loop.hpp:147-256 | every step of every thread keeps each loop's posts in order and its life in step with the controller |
| `Pipeline.FaithfulKept` | src/server/src/application.cpp:33-49 | every step keeps the posted and published messages equal to what the engine produces from the requests run |
| `Pipeline.InOrder` | src/server/src/application.cpp:33-49 | in every interleaving requests run are a prefix of those delivered and published records a prefix of the engine's output over them |
| `Pipeline.StopLosesNothing` | src/server/src/application.cpp:93-114 | when stop has joined all loops, under any interleaving and idle strategies, queues are empty, every request ran once, and exactly the engine's output was published |
| `Pipeline.OneProducerOneConsumer` | src/lab/lab/event_loop.hpp:168-171 | over any run, what each queue received is what one thread's own moves put there, and what left it is what one other thread's own moves took; only the output thread publishes |
| `Pipeline.ProcessingJoins` | src/lab/lab/event_loop.hpp:178-183 | once told to stop, the processing thread takes a bounded number of further steps, whatever the others do |
| `Pipeline.OutputJoins` | src/lab/lab/event_loop.hpp:178-183 | likewise the output thread |
| `Pipeline.InputJoins` | src/order_entry/src/runtime/session.cpp:57-63 | likewise the input thread, its deliveries included: a poll runs one handler at most, so it delivers one request at most |
| `Service.RequestsServed` | src/lab/lab/event_loop.hpp:207-256 | while its flag stays up, in any interleaving, a bounded number of the processing thread's own steps has the first k queued requests begun, in order, whichever idle strategy it has |
| `Service.NextRequestServed` | src/lab/lab/event_loop.hpp:207-256 | four of its own steps, besides the messages of the request under way, begin the next request |
| `Service.MessagesServed` | src/lab/lab/event_loop.hpp:207-256 | likewise the output thread and its k-th message: at most three steps for each message before it and three more |
| `Service.ConsumerIsThere` | src/server/src/application.cpp:51-114 | in every reachable state nothing can be posted to a loop whose thread has not started or is draining or gone, and no loop drains before its producer is gone |
| `Service.IterationParks` | src/lab/lab/event_loop.hpp:207-228 | an iteration ends parked if and only if the loop waits when idle, ran no task and polled nothing |
| `Service.NeverParksBusy` | src/lab/lab/event_loop.hpp:207-241 | over any run no busy-spinning loop and no loop that did work is ever parked |
| `Pipeline.NeverStuck` | src/lab/lab/event_loop.hpp:207-256 | a spawned thread that has not exited always has a step to take |
| `Pipeline.StopCanReturn` | src/server/src/application.cpp:93-114 | from every state that can be met, start and stop can run to their end with no further request arriving |
| `Pipeline.WholeRunExists` | src/server/src/application.cpp:51-114 | for any requests and idle strategies there is a whole run that delivers them, one in each iteration of the input loop, stops, and publishes exactly the engine's output |
| `Decimal.ParseOfPrint` | src/lab/lab/charconv.hpp:28-52 | reading a printed number gives it back whenever it fits |
| `Decimal.PrintWithin` | src/lab/lab/charconv.hpp:28-52 | any accepted spelling of a number holds every character of its printed form |
| `FixSyntax.ParseExactly` | src/lab/lab/charconv.hpp:28-52 | a string is read as a number if and only if it is that number printed, below the limit, behind any zeros |
| `FixText.GetOfSet` | src/quickfix_fix/src/session.cpp:21-41 | getting after setting, for the same tag and for every other |
| `FixText.Message.Set` | src/quickfix_fix/src/session.cpp:21-31 | overwrites in place or appends, tags stay unique |
| `FixText.Message.Get` | src/quickfix_fix/src/session.cpp:33-41 | the scan returns the value of the first field with the tag, or nothing |
| `FixText.Encode` | src/quickfix_fix/src/codec.cpp:36-45 | type first, then every field in order, each closed by the delimiter |
| `FixText.Decode` | src/quickfix_fix/src/codec.cpp:47-76 | the loop reads the pieces between delimiters, with the source's three errors |
| `FixText.DecodedIsEncodable` | src/quickfix_fix/src/codec.cpp:15-76 | whatever is read from any payload under any delimiter could have been written under it |
| `FixText.RoundTripExactly` | src/quickfix_fix/src/codec.cpp:36-76 | reading undoes writing if and only if the delimiter is not `=`, 3 or 5, the type is not empty, no tag is 35, and the delimiter stands in no tag, type or value |
| `FixText.ReadIsStable` | src/quickfix_fix/src/codec.cpp:36-76 | for every payload and delimiter that decode, writing the result and reading it again gives the same message |
| `FixSyntax.SetsInPlace` | src/quickfix_fix/src/session.cpp:21-31 | a set overwrites the field with that tag where it stands, or adds one at the end |
| `FixSyntax.PiecesJoined` | src/quickfix_fix/src/codec.cpp:47-67 | closed each by the delimiter, the pieces of any payload are that payload, but for a final delimiter it may lack |
| `FixSyntax.ReadExactly` | src/quickfix_fix/src/codec.cpp:15-76 | a payload is read if and only if every piece that is not empty is digits below 65536, an equals sign and any value, and the last piece for tag 35 has a value |
| `FixSyntax.ReadsLast` | src/quickfix_fix/src/codec.cpp:15-76 | what is read under each tag is the value of the last piece that spells it, with any leading zeros, and nothing if none does |
| `FixSyntax.ErrorExactly` | src/quickfix_fix/src/codec.cpp:15-76 | otherwise the error is that of the first bad piece, malformed when nothing precedes an equals sign and else a bad tag, or a missing type |
| `Counterexamples.DelimiterInValue` | src/quickfix_fix/src/codec.cpp:36-45 | a concrete message that is not read back |
| `B3Spec.CodesInvert` | src/ospec/src/b3.cpp:20-190 | each code table is one-to-one, and only written codes are read |
| `B3Spec.ReasonInverts` | src/ospec/src/b3.cpp:98-204 | a reject reason survives if and only if it is not unknown symbol |
| `B3Codec.EncodeRequest` | src/morfix_quickfix/src/codecs.cpp:268-308 | the message built in place by sets is the specified one, field order included |
| `B3Codec.EncodeEvent` | src/morfix_quickfix/src/codecs.cpp:310-354 | likewise for events |
| `B3Codec.RequestRoundTrip` | src/morfix_quickfix/src/codecs.cpp:358-405 | the acceptor reads a request as the initiator wrote it if and only if it is a cancel or symbol and exchange are not empty |
| `B3Codec.EventRoundTrip` | src/morfix_quickfix/src/codecs.cpp:367-387 | the initiator reads an event as the acceptor wrote it if and only if its strings are not empty where required and its reason is not unknown symbol |
| `B3Codec.ReadRequestsAreSendable` | src/morfix_quickfix/src/codecs.cpp:389-405 | any message that reads as a request gives one that survives writing and reading |
| `B3Codec.ReadEventsAreSendable` | src/morfix_quickfix/src/codecs.cpp:367-379 | likewise for events |
| `B3Codec.RequestOverText` | src/morfix_quickfix/src/codecs.cpp:268-308 | a request passes both codecs if and only if the typed codec allows it and its message can be written under the delimiter |
| `B3Codec.EventOverText` | src/morfix_quickfix/src/codecs.cpp:310-354 | an event passes both codecs if and only if the typed codec allows it and its message can be written under the delimiter |
| `B3Codec.PlainRequestOverText` | src/quickfix_fix/quickfix_fix/codec.hpp:12-16 | under any delimiter that is no digit, no capital letter and not `=`, such as SOH, a sendable request passes when its strings do not hold the delimiter |
| `B3Codec.PlainEventOverText` | src/quickfix_fix/quickfix_fix/codec.hpp:12-16 | likewise for events |
| `WireFormat.RequestText` | src/morfix_quickfix/src/codecs.cpp:268-308 | the exact text of each request under any delimiter: type, tags, codes and numbers in the order written |
| `WireFormat.EventText` | src/morfix_quickfix/src/codecs.cpp:310-354 | likewise of each event, absent fields left out |
| `WireFormat.CodeTables` | src/ospec/src/b3.cpp:20-112 | the character or number of each code |
| `WireFormat.RequestReadExactly` | src/morfix_quickfix/src/codecs.cpp:126-186 | a message is read as a given request if and only if its type and each tag of that request spell it, whatever else it holds |
| `WireFormat.EventReadExactly` | src/morfix_quickfix/src/codecs.cpp:187-266 | likewise as a given event, an absent optional field meaning none |
| `WireFormat.RequestErrorExactly` | src/morfix_quickfix/src/codecs.cpp:126-186 | a message that is no request is refused for the first troubled field in reading order, with the trouble named, or for its type |
| `WireFormat.EventErrorExactly` | src/morfix_quickfix/src/codecs.cpp:187-266 | likewise for events, the reject code looked up last in a report and first in a cancel reject |
| `Counterexamples.ReasonIsLost` | src/ospec/src/b3.cpp:98-112 | a concrete reject whose reason changes on the way |
| `FixedStrings.LayoutsAgree` | src/lab/lab/fixed_string.hpp:229-232 | at one size equal contents and equal buffers are the same thing; at two sizes the buffers differ |
| `FixedStrings.FixedString.FromStringView` | src/lab/lab/fixed_string.hpp:260-268 | what does not fit is cut off and remembered, the rest of the buffer is zero |
| `FixedStrings.FixedString.Widen` | src/lab/lab/fixed_string.hpp:54-60 | a larger string from a smaller one, zeros beyond it |
| `FixedStrings.FixedString.Assign` | src/lab/lab/fixed_string.hpp:70-78 | assignment from a smaller size leaves no stale byte |
| `FixedStrings.FixedString.RemoveSuffix` | src/lab/lab/fixed_string.hpp:152-165 | the suffix dropped if present, zeros after the rest |
| `FixedStrings.FixedString.From` | src/lab/lab/fixed_string.hpp:119-127 | succeeds if and only if the content fits |
| `FixedStrings.PrintIntReads` | src/lab/lab/fixed_string.hpp:136-150 | a printed number starts with a minus if and only if it is negative, and what follows is read as its magnitude |
| `FixedStrings.FixedString.FromNumber` | src/lab/lab/fixed_string.hpp:136-150 | succeeds if and only if the printed number fits |
| `FixedStrings.FixedString.EqualMeansSameHash` | src/lab/lab/fixed_string.hpp:304-320 | strings of one size compare equal if and only if their buffers are identical, hence equal hashes under any hash function |

## Left out

- Sockets, receivers, the record sink, logging, configuration and command-line programs: input and output without hard state.
- JSON encoders and decoder: the library's behaviour is not visible here.
- The conversions between message vocabularies, lifecycle states and the FIX session objects: field copies and callbacks.
- Constant message fields (trade date, trade condition, timestamps of zero, absent optional fields) are not represented.
- Pool chunk sizes, map capacities, hook layout and queue internals: allocation is fresh, a side map is a sorted sequence, a queue is an atomic FIFO. A price level is a value in that sequence, so the address stability of nodes is modelled and that of levels is not.
- Allocation failure and exceptions thrown by subscribers: handlers accept or give a named reject, callbacks append to a log.
- A start that fails half way, and destructors: the pipeline starts fully before it stops.
- Time and memory order: steps are atomic and a timed wait may end at any time.
- Characters are Dafny characters, and text comparison is exact; there is no encoding or locale.
- The market-data code tables of B3 have no reader to be inverted by.
