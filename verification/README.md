# Verification model of the exchange and its trading clients

This project models the order book of the exchange, the market data path to its participants, and the order path of a
trading client, and proves how they work together. All parts share one abstract object: a side of a book as the
sequence of its resting orders in price-time order (`PriceTime`).

- **Order book.** `MemPools`, `Rings`, `Shapes`, `ShapeInsert`, `ShapeRemove` and `LinkedBooks` model the linked
  structure: pools whose block indices are the pointers, circular lists of price levels and of orders, the price index
  and the order lookup. `LinkedBooks.LinkedBook` is generic in the order key because the exchange and the client run
  the same code over different order records. `Shapes.Ok` says that all structures agree, and `SideView` reads off the
  side of the book. `SlotLookups` reads the price index from the sides. `Matching` is what the book computes as a
  function; `MEOrderBooks.MEOrderBook` is the code, and refines it. `BookRuns`, `Lifecycles` and `PriceSlots` prove
  what holds of it over whole runs, `TradeReports` that what is published and what is answered tell the same trades,
  and `MatchingEngines` when a whole run of the code is one of the function.
- **Market data.** `MarketDataPublishers` numbers the updates, `Snapshots` folds them into snapshot cycles, `Consumers`
  is the client's gap detection and recovery. `Replication` and `Markets` define what a stream of updates means and
  prove that it reproduces the exchange's books. `Recoveries` and `RecoveryRuns` prove safety and progress of
  recovery over a lossy network, `ForwardingRuns` what exactly is forwarded in and outside recovery.
  `MarketOrderBooks.MarketOrderBook` replays updates on the linked structure, and
  `TopOfBook` says when its best bid and offer is up to date.
- **Orders and risk.** `OrderManagers` has the order slots and the pre-trade check, `TradingSessions` the protocol
  between one client and the exchange with messages under way in both directions, `PositionKeepers` positions and
  profit. `SessionRuns` ties whole sessions to what the client asked for, what the exchange did and what was filled.
- **Transport.** `LFQueues` is the lock-free queue at the granularity of atomic operations, `Framing`,
  `OrderServers`, `OrderGateways` and `FIFOSequencers` the framing, numbering and sequencing of requests and responses,
  `Connections` which connection the server listens to for a client.

Objects that the program updates in place are classes whose methods are tied to a function of the old state; the laws
about those functions are lemmas. All capacities are parameters. Integers are unbounded except where the width matters:
the market order id in fill responses, the quantities of the best bid and offer, and the pre-trade check are modelled in
32 bits. A null pointer is -1. A failed assertion that would end the program is a `false` result or a precondition.

## What turned out to be false of the code

Each point names the exact condition under which the code is right, and a counterexample where one is worked out.

- A price level is looked up by `price % 256`, on both sides in one index. A new order ends up where its price belongs
  if and only if it asks for no more than all orders it crosses hold together, or no order that it does not cross is at
  another price of its slot, which can be told before the call (`PriceSlots.AddIsFaithfulIff`, proved of the linked
  structure in `MEOrderBook.Add`; a clash is carried out in the verified method `ClashingBook`). The book is right after
  every request of a run if and only if this holds of every new order of the run (`MatchingEngines.RunIsFaithfulIff`).
- The consumer does not compare the numbers of SNAPSHOT_START and SNAPSHOT_END. A queue that completes was one whole
  cycle if and only if they are equal (`RecoveryRuns.WholeCycleIff`), and a spliced one can leave a wrong book
  (`SplicedCycleIsWrong`). For a right book equal numbers are sufficient, not necessary: it is enough that everything
  after START came from cycles taken at the number of END (`StartDoesNotMatter`).
- CLEAR leaves the client's price index as it was, although its comment promises to clear the full book. The structure
  is sound afterwards if and only if the book was empty (`MarketOrderBook.Clear`, `OnMarketUpdate`), and the next order
  added is seen if and only if no order was in its price slot before (`AddAfterClear`; carried out in the verified
  method `OrderLostAfterClear`).
- The best bid and offer is refreshed only by updates at or inside the best price of a side that was not empty. A quote
  that agrees with its side still agrees after an update if and only if the update neither opens an empty side nor
  clears it (`TopOfBook.AgreementKeptIff`); whatever it showed, it is right again from the next such update on
  (`TouchRestores`).
- A pool of N blocks serves N-1 allocations: the one that takes the last free block fails (`MemPool.Allocate`).
- The queue never checks for room. For every capacity, the values read are a prefix of those written in all
  interleavings if and only if writes wait for a free slot, and a released slot keeps its value, which the publisher
  relies on, if and only if they wait for two (`LFQueues.ReadsArePrefixIff`, `ReleasedSlotStaysIff`).
- Requests with the same receive time may be published in either order: the order is determined if and only if no two
  different pending requests share one (`FIFOSequencers.OrderIsDeterminedIff`).
- An order of quantity 0, sent from any idle slot at any price while no response is under way, leaves the slot waiting
  for ever (`TradingSessions.ZeroQuantitySticks`); with positive quantities no slot does (`QuietSlotsAgree`).
- The pre-trade check computes in 32 bits, where the least number is its own absolute value. It is right for every
  position, profit, side and quantity if and only if position limit and largest order together fit 31 bits
  (`OrderManagers.CheckIsRightIff`). These are also exactly the limits at which no sum overflows (`NeverOverflowsIff`):
  wrapping, which the language does not promise for signed numbers, is taken for granted only beyond them. There, a
  position limit of 32 bits is negative as a signed number and refuses even an order of nothing, and with a smaller one
  an order that forms the least number is allowed (`LeastNumberPasses`, with `RiskWraps` as an instance), so that in some
  run a client is let through the limit (`TradingSessions.PositionStaysLimitedIff`).

## Model

| member | source | states |
|---|---|---|
| MemPools.MemPool.Allocate | common/mem_pool.h:20-30 | hands out a free block and marks only it; succeeds exactly while fewer than N-1 blocks are live; afterwards the cursor is on a free block, all blocks passed being in use |
| MemPools.MemPool.UpdateNextFreeIndex | common/mem_pool.h:54-65 | the circular scan ends within one lap, on the first free block, and fails exactly when no block is free |
| MemPools.MemPool.Deallocate | common/mem_pool.h:34-39 | a block in use becomes free and nothing else changes |
| Rings.SpliceAt | exchange/matcher/me_order_book.h:115-123 | linking a node between two neighbours gives the circular list with the node at that place |
| Rings.UnlinkAt | exchange/matcher/me_order_book.h:142-149 | unlinking a node gives the circular list without it, its own links reset |
| Shapes.LiveInView | exchange/matcher/me_order_book.h:198-216 | every live order block is seen on its side and is found under its key |
| Shapes.ViewInLookup | exchange/matcher/me_order_book.h:198-216 | every order seen on a side is a live block found under its key |
| ShapeInsert.OpenedAll | exchange/matcher/me_order_book.h:201-206 | opening a level for an order keeps all structures in agreement and queues the order in price-time order |
| ShapeInsert.JoinedAll | exchange/matcher/me_order_book.h:207-216 | appending an order to a level's queue keeps all structures in agreement and queues it behind its price |
| ShapeRemove.TakenAll | exchange/matcher/me_order_book.h:181-194 | unlinking an order that shares its level keeps all structures in agreement and removes exactly it |
| ShapeRemove.ClosedAll | exchange/matcher/me_order_book.h:178-194 | removing the last order of a level with its level keeps all structures in agreement and removes exactly it |
| LinkedBooks.LinkedBook.FindRung | exchange/matcher/me_order_book.h:96-109 | the walk ends within a lap at the one place that keeps the levels strictly sorted |
| LinkedBooks.LinkedBook.InsertBefore | exchange/matcher/me_order_book.h:119-130 | links before the target and moves the head when the newcomer is more aggressive; the patch of the target's next link never changes anything |
| LinkedBooks.LinkedBook.AddOrdersAtPrice | exchange/matcher/me_order_book.h:88-132 | the new level is indexed and linked at its unique sorted place, head first, everything else unchanged |
| LinkedBooks.LinkedBook.AddOrder | exchange/matcher/me_order_book.h:198-216 | the order joins the queue that its price slot leads to, behind all orders of at least that queue's price, or opens a level; all structures agree again unless that queue has another side or price |
| LinkedBooks.LinkedBook.RemoveOrdersAtPrice | exchange/matcher/me_order_book.h:135-155 | the level leaves the list, the index and the pool; the head moves on when it was the head |
| LinkedBooks.LinkedBook.RemoveOrder | exchange/matcher/me_order_book.h:175-195 | exactly the order leaves its side, the lookup and the pool, with its level when it was the last there |
| LinkedBooks.LinkedBook.GetNextPriority | exchange/matcher/me_order_book.h:157-163 | one more than the priority of the last order of the queue that the price slot leads to, or 1 |
| PriceTime.NextPriorityExceeds | exchange/matcher/me_order_book.h:157-163 | the priority handed out exceeds those of all orders at the price |
| PriceTime.InsertKeepsWf | exchange/matcher/me_order_book.h:198-216 | a fresh order keeps its side in strict price, id and priority order |
| PriceTime.SortedUnique | exchange/matcher/me_order_book.h:88-132 | the orders of a side can be queued in one way only |
| Matching.MatchIsGreedy | exchange/matcher/me_order_book.cpp:59-84 | the loop consumes a prefix of the opposite side, only its last order in part, as much as crosses and no more, each fill at the passive price with both responses |
| BookRuns.MatchExhausts | exchange/matcher/me_order_book.cpp:62-81 | a remainder no longer crosses the opposite side |
| BookRuns.MatchLeaves | exchange/matcher/me_order_book.cpp:59-84 | something is left of a taker exactly when it asks for more than all orders it crosses hold together, and then exactly these are gone |
| BookRuns.ProcessKeepsGood | exchange/matcher/me_order_book.cpp:88-132 | every add and cancel leaves an uncrossed book with both sides in order, positive quantities and unique keys and ids |
| BookRuns.RestingPriceIsOneSided | exchange/matcher/me_order_book.cpp:93-100 | when a remainder rests no opposite order is at its price, so its slot is not the other side's |
| BookRuns.RunKeepsGood | exchange/matcher/me_order_book.cpp:88-132 | the same after every run of requests |
| TradeReports.MatchIsReported | exchange/matcher/me_order_book.cpp:25-55 | the k-th fill of a match: TRADE with the taker's side and the k-th opposite order's price, both responses with the same price and quantity and the ids of both, then CANCEL or MODIFY with what is left of that order |
| TradeReports.NewTrades | exchange/matcher/me_order_book.cpp:25-105 | a new order publishes one TRADE for each order it meets, in their order, with its own side, their prices, and the quantities that both fills report |
| TradeReports.TradesAreFills | exchange/matcher/me_order_book.cpp:25-132 | in every run the k-th TRADE agrees in side, price and quantity with fills 2k and 2k+1 among the responses, and there are no others |
| TradeReports.NewIsAcknowledged | exchange/matcher/me_order_book.cpp:88-105 | a new order is acknowledged as sent, under an unused id; its rest is in the book under that id, side and price and is the last thing published, and without a rest no ADD is |
| TradeReports.IdsAreConsecutive | exchange/matcher/me_order_book.h:74-76 | in every run new orders are acknowledged under consecutive market order ids |
| TradeReports.CancelIsAnswered | exchange/matcher/me_order_book.cpp:108-132 | a cancel takes out exactly the order and answers and publishes its own data |
| TradeReports.CancelIsRejected | exchange/matcher/me_order_book.cpp:108-119 | a cancel of what does not rest is rejected and nothing changes or is published |
| MEOrderBooks.MEOrderBook.Match | exchange/matcher/me_order_book.cpp:25-55 | one fill on the linked structure: head reduced or removed, two responses, TRADE and CANCEL or MODIFY |
| MEOrderBooks.MEOrderBook.CheckForMatch | exchange/matcher/me_order_book.cpp:59-84 | the loop on the linked structure terminates with exactly the sides, responses, updates and remainder of the matching function |
| MEOrderBooks.MEOrderBook.Rest | exchange/matcher/me_order_book.cpp:95-103 | a remainder on the linked structure gets the side, place and priority of the queue that its price slot leads to, and is published with it |
| MEOrderBooks.MEOrderBook.Add | exchange/matcher/me_order_book.cpp:88-105 | add on the linked structure, slot clashes included: book, responses and updates; the book is that of the abstract add if and only if the order does not outlast what it crosses or no order it leaves behind is at another price of its slot, and then the structures agree |
| MEOrderBooks.MEOrderBook.Cancel | exchange/matcher/me_order_book.cpp:108-132 | cancel on the linked structure refines the abstract cancel, including the rejection |
| MatchingEngines.RunRequests | exchange/matcher/matching_engine.h:66-77 | the engine's loop on one linked book: for every run of admissible requests with room whose new orders find their slots free when they rest, book, responses and updates are those of the abstract run |
| MatchingEngines.RunIsFaithfulIff | exchange/matcher/matching_engine.h:28-77 | the code's book is the abstract one after every request of a run if and only if each new order of the run finds its slot free when it has to rest |
| MatchingEngines.AddKeepsApart | exchange/matcher/me_order_book.h:78-85 | an order that finds its slot free leaves the resting prices in different slots |
| PriceSlots.RestsFaithfullyIff | exchange/matcher/me_order_book.h:78-85 | a remainder rests where its price belongs if and only if no live order is at another price of its slot |
| PriceSlots.AddIsFaithfulIff | exchange/matcher/me_order_book.cpp:88-105 | the code's add is the abstract add if and only if the order does not outlast what it crosses or no order it leaves behind is at another price of its slot |
| PriceSlots.RestsBeyond | exchange/matcher/me_order_book.cpp:93-95 | something is left to rest exactly when the order asks for more than all orders it crosses hold, and then it meets exactly the book without these |
| PriceSlots.SlotClashExample | exchange/matcher/me_order_book.h:78-85 | two prices one index size apart: the better bid is queued behind the worse one |
| MEOrderBooks.ClashingBook | exchange/matcher/me_order_book.cpp:88-105 | the same two orders carried out on the linked structure |
| SlotLookups.SlotLeadsTo | exchange/matcher/me_order_book.h:83-85 | the level indexed at the slot of a price is that of the orders resting in the slot, and none exactly when none rests there |
| MEOrderBooks.BlocksInUse | common/mem_pool.h:20-39 | in every reachable book the pools have exactly as many blocks in use as orders rest, and as there are different resting prices |
| Lifecycles.MatchTaker | exchange/matcher/me_order_book.cpp:33-35 | the taker hears its fills in order with decreasing leaves, down to what is left of it |
| Lifecycles.MatchPassive | exchange/matcher/me_order_book.cpp:37-39 | a passive order hears exactly its own fills, down to what still rests of it |
| Lifecycles.EveryLifeTracks | exchange/matcher/me_order_book.cpp:25-132 | in every run each order's responses are ACCEPTED, then FILLEDs with consistent leaves, then at most one CANCELED, and end where the book stands |
| Lifecycles.LifeConserves | exchange/matcher/me_order_book.cpp:25-132 | such a sequence of responses accounts for the whole requested quantity |
| Lifecycles.QuantityIsConserved | exchange/matcher/me_order_book.cpp:25-132 | in every run, for every key, requested quantity is executed, resting or handed back |
| Lifecycles.BoughtEqualsSold | exchange/matcher/me_order_book.cpp:25-55 | in every run bought, sold and published traded quantities are equal |
| Replication.FitAllKeepsGood | trading/strategy/market_order_book.cpp:20-44 | replaying a fitting stream keeps a participant's book in order with unique ids |
| Replication.MatchMirrored | exchange/matcher/me_order_book.cpp:41-54 | the TRADE, MODIFY and CANCEL updates of a match replay to what the match left |
| Replication.ProcessMirrored | exchange/matcher/me_order_book.cpp:88-132 | the updates of one request fit the participant's book and replay to the book after it |
| Replication.RunMirrored | exchange/matcher/me_order_book.cpp:88-132 | the same for every sequence of requests on one ticker |
| Markets.StreamReproducesVenue | exchange/matcher/me_order_book.cpp:25-132 | over all tickers, the stream published so far replays to exactly the resting orders of every book, queues and priorities included |
| Markets.VenueIsRuns | exchange/matcher/matching_engine.h:28-47 | each book and its updates are those of a run of the requests for its ticker alone |
| MarketDataPublishers.MarketDataPublisher.Publish | exchange/market_data/market_data_publisher.cpp:18-36 | the oldest update goes to both streams under the next number, although its slot is released in between |
| MarketDataPublishers.MarketDataPublisher.Drain | exchange/market_data/market_data_publisher.cpp:15-36 | everything queued is published and forwarded in order under consecutive numbers |
| Snapshots.NoteFollows | exchange/market_data/snapshot_synthesizer.cpp:29-66 | folding an update keeps the live orders exactly those of the book |
| Snapshots.NotedCovers | exchange/market_data/snapshot_synthesizer.cpp:29-69 | along every stream the live orders of every ticker are exactly those of its book |
| Snapshots.SnapshotRoundTrip | exchange/market_data/snapshot_synthesizer.cpp:72-108 | replaying a cycle's CLEAR and ADD messages from any market yields the market it was taken of, queues included |
| Snapshots.SnapshotSynthesizer.AddToSnapshot | exchange/market_data/snapshot_synthesizer.cpp:29-69 | its assertions hold for the next message of any stream, and the orders follow |
| Snapshots.SnapshotSynthesizer.PublishSnapshot | exchange/market_data/snapshot_synthesizer.cpp:72-108 | the messages of the cycle, numbered from 0 |
| Consumers.MarketDataConsumer.CollectSnapshot | trading/market_data/market_data_consumer.cpp:62-86 | complete exactly when the keys are 0, 1, ... without a gap; the data are those of the queue in order |
| Consumers.MarketDataConsumer.CollectIncrementals | trading/market_data/market_data_consumer.cpp:95-121 | the expected number ends at the first one missing; a gap is reported exactly when something lies beyond it |
| Consumers.MarketDataConsumer.CheckSnapshotSync | trading/market_data/market_data_consumer.cpp:47-144 | the whole decision as a function of both queues |
| Consumers.MarketDataConsumer.QueueMessage | trading/market_data/market_data_consumer.cpp:147-163 | a message is queued, a snapshot number seen twice restarts the snapshot queue, then the decision is taken |
| Consumers.MarketDataConsumer.RecvCallback | trading/market_data/market_data_consumer.cpp:166-210 | the messages of a buffer are received one by one; outside recovery a snapshot buffer is dropped, and incremental messages with the expected numbers are all forwarded without entering recovery |
| Recoveries.CycleShape | exchange/market_data/snapshot_synthesizer.cpp:72-108 | a cycle has one START first and one END last, both with the number of updates it reflects |
| Recoveries.CompleteIsCycle | trading/market_data/market_data_consumer.cpp:62-93 | a queue that completes with equal numbers in START and END is a whole cycle, even when it was put together from several |
| Recoveries.RecoverKeeps | trading/market_data/market_data_consumer.cpp:95-143 | ending recovery on a whole cycle makes the replay faithful at the new expected number |
| Recoveries.ArrivalKeeps | trading/market_data/market_data_consumer.cpp:179-206 | every arrival, lost, repeated or reordered neighbours notwithstanding, keeps the recovery invariant |
| RecoveryRuns.ConsumerIsFaithful | trading/market_data/market_data_consumer.cpp:47-210 | in every run, outside recovery: both queues empty and, if the last cycle was whole, what was forwarded replays to the exchange's books after update next - 1; during it: snapshot queue empty or 0..k, START first, END not last |
| RecoveryRuns.TurnIsCallback | trading/market_data/market_data_consumer.cpp:166-210 | the states of such runs are those of the consumer object |
| RecoveryRuns.ParticipantSeesTheExchange | trading/market_data/market_data_consumer.cpp:47-210 | from client requests to the abstract replay, in which CLEAR empties a book: what an up-to-date consumer has forwarded shows exactly the exchange's resting orders |
| RecoveryRuns.RecoveryEnds | trading/market_data/market_data_consumer.cpp:47-144 | from any recovery state one lossless cycle ends recovery exactly when the queued incrementals beyond its number have no gap; next is then one past the larger of its number and the highest queued |
| RecoveryRuns.WholeCycleIff | trading/market_data/market_data_consumer.cpp:88-97 | a queue that completes was one whole cycle if and only if START and END carry the same number |
| RecoveryRuns.StartDoesNotMatter | trading/market_data/market_data_consumer.cpp:62-97 | a queue whose messages after START come from cycles at the number of END carries the data of that cycle |
| RecoveryRuns.SplicedCycleIsWrong | trading/market_data/market_data_consumer.cpp:88-97 | a run with losses after which the consumer, outside recovery, has a wrong book |
| ForwardingRuns.TurnForwards | trading/market_data/market_data_consumer.cpp:186-204 | outside recovery a buffer of messages in order from the expected number is forwarded as exactly these updates of the stream, and recovery is not entered |
| ForwardingRuns.TurnBreaksIff | trading/market_data/market_data_consumer.cpp:166-206 | a turn outside recovery enters it if and only if an incremental message is not the next expected; those before it are forwarded, it and those behind it queued |
| ForwardingRuns.RunGoesOn | trading/market_data/market_data_consumer.cpp:166-206 | after any run that ends outside recovery, the updates that follow may arrive in order, and all are forwarded |
| ForwardingRuns.NeverRecoversIff | trading/market_data/market_data_consumer.cpp:166-206 | a consumer never recovers if and only if the incremental messages arrive as 1, 2, 3, ...; then exactly these updates are forwarded |
| ForwardingRuns.ArrivalOutside | trading/market_data/market_data_consumer.cpp:186-204 | an arrival outside recovery forwards the next incremental message and nothing else; any other number enters recovery |
| ForwardingRuns.ArrivalInside | trading/market_data/market_data_consumer.cpp:47-163 | an arrival in recovery forwards nothing unless it completes the snapshot; then recovery ends exactly without a gap, forwarding the snapshot's data and the updates behind its number, or only the snapshot is given up |
| ForwardingRuns.RecoveryForwards | trading/market_data/market_data_consumer.cpp:47-144 | a recovery that one whole cycle ends forwards exactly the cycle's data and the updates of the stream behind it |
| TopOfBook.AgreementKeptIff | trading/strategy/market_order_book.cpp:21-74 | an agreeing quote agrees after an update if and only if the update neither opens an empty side nor clears a filled one unrefreshed |
| TopOfBook.TouchRestores | trading/strategy/market_order_book.cpp:21-74 | along any stream from any quote, wrong ones included: after an update at or inside the best price the quote is as if it had been right all along |
| TopOfBook.UntouchedQuoteStays | trading/strategy/market_order_book.cpp:21-74 | without such an update the quote stays what it was along the whole stream |
| TopOfBook.QuoteAlongStream | trading/strategy/market_order_book.cpp:21-74 | along a whole stream the quote is the best price and its total quantity, except from the opening of a side to the next update at or inside its best price |
| MarketOrderBooks.TopIsFirstLevel | trading/strategy/market_order_book.h:27-53 | the first level's price and the sum over its queue are the best price and the total quantity at it |
| MarketOrderBooks.MarketOrderBook.UpdateBBO | trading/strategy/market_order_book.h:27-53 | each flagged quote becomes the top of its side, or invalid |
| MarketOrderBooks.MarketOrderBook.ReleaseOrders | trading/strategy/market_order_book.cpp:47-51 | every live order block is released, each once |
| MarketOrderBooks.MarketOrderBook.ReleaseLevels | trading/strategy/market_order_book.cpp:53-57 | the walk releases every level of a side, each once, and ends |
| MarketOrderBooks.MarketOrderBook.Clear | trading/strategy/market_order_book.cpp:46-66 | both sides empty, all blocks free with their contents in place, the index unchanged; the structure is sound if and only if the book was empty |
| MarketOrderBooks.MarketOrderBook.AddAfterClear | trading/strategy/market_order_book.cpp:25-29 | the first order added after CLEAR is seen if and only if no order was in its price slot before; otherwise it is filed under its id and both heads stay null |
| MarketOrderBooks.OrderLostAfterClear | trading/strategy/market_order_book.cpp:25-66 | ADD, CLEAR and ADD at one price, carried out: the second order is on no side |
| MarketOrderBooks.MarketOrderBook.OnMarketUpdate | trading/strategy/market_order_book.cpp:20-80 | book and quotes follow the update, a touched side's quote is right whatever it was; the structure stays sound unless a CLEAR met a filled book |
| MarketOrderBooks.FittingIsAccepted | trading/strategy/market_order_book.cpp:24-44 | every update of the exchange's stream can be applied while, counted in orders and prices, there is room and its slot is free |
| MarketOrderBooks.MarketOrderBook.FollowUpdates | trading/strategy/trade_engine.cpp:84-92 | the linked book and its quotes follow a whole stream while its orders can be added; for the exchange's stream of any requests it shows exactly the exchange's resting orders |
| OrderManagers.RiskIsExact | trading/strategy/risk_manager.h:48-58 | when position limit and largest order together fit 31 bits, an order is allowed exactly when size, position it may lead to, and loss are within limits |
| OrderManagers.CheckIsRightIff | trading/strategy/risk_manager.h:48-58 | the check is right for every position, profit, side and quantity if and only if position limit and largest order together fit 31 bits |
| OrderManagers.RefusalIs | trading/strategy/risk_manager.h:48-58 | of the refusals the size comes first, then the position, then the loss |
| OrderManagers.NeverOverflowsIff | trading/strategy/risk_manager.h:52 | no sum it forms leaves the signed 32 bits if and only if the limits are such |
| OrderManagers.LeastNumberPasses | trading/strategy/risk_manager.h:52 | for all other position limits of 31 bits, an order from any position up to the least 32-bit number, the first that overflows, is allowed beyond the limit |
| OrderManagers.RiskWraps | trading/strategy/risk_manager.h:48-58 | an instance of other limits: an order of 2147483648 passes a position limit of 1 |
| OrderManagers.OrderManager.SendNew | trading/strategy/order_manager.cpp:6-17 | one NEW request with the next id, and the slot pending with it |
| OrderManagers.OrderManager.SendCancel | trading/strategy/order_manager.cpp:20-32 | one CANCEL request for the slot's order, and the slot pending cancel |
| OrderManagers.OrderManager.MoveOrder | trading/strategy/order_manager.h:61-88 | the slot's transition by its state, price and risk result; no new order at an invalid price |
| OrderManagers.OrderManager.MoveOrders | trading/strategy/order_manager.h:93-103 | first the buy slot, then the sell slot, each with its own risk check; every new order has the clip, a valid price and the price asked for on its side |
| OrderManagers.OrderManager.OnOrderUpdate | trading/strategy/order_manager.h:24-51 | the slot of the response's side takes the response, no other slot changes |
| TradingSessions.SentIsAbout | exchange/matcher/me_order_book.cpp:25-132 | every response but a rejection names the taker or a resting order, with its side |
| TradingSessions.UpdateFollows | trading/strategy/order_manager.h:32-50 | a slot takes a response as the life of the order it holds does |
| TradingSessions.ActKeepsSound | trading/strategy/order_manager.h:24-103 | whatever happens next and whatever the risk limits, each slot brought up to date by the responses under way is what the exchange has |
| TradingSessions.ActKeepsLimited | trading/strategy/order_manager.h:61-103 | whatever happens next keeps position and open orders within the limit, when the check is right |
| TradingSessions.ResponsesMeetTheirOrder | trading/strategy/order_manager.h:24-51 | in every run, whatever the risk limits, each ACCEPTED, FILLED or CANCELED under way is about the order now in the slot of its side, and at most one order per side rests or is on its way |
| TradingSessions.PositionStaysLimited | trading/strategy/risk_manager.h:48-58 | in every run with limits that together fit 31 bits, neither the known position, nor the true one with the fills under way, nor any fill still possible leaves the position limit |
| TradingSessions.PositionStaysLimitedIff | trading/strategy/risk_manager.h:48-58 | for every position limit within 31 bits: it holds in all runs if and only if it and the largest order together fit 31 bits |
| TradingSessions.LimitBroken | trading/strategy/risk_manager.h:52 | otherwise a client that buys its way up, each order filled, is let through the limit |
| TradingSessions.LimitIsTight | trading/strategy/risk_manager.h:48-58 | a run in which that bound is reached |
| TradingSessions.StaysLimited | trading/strategy/trade_engine.cpp:122-131 | a response adds to the position no more than it takes from what is outstanding |
| TradingSessions.QuietSlotsAgree | trading/strategy/order_manager.h:61-88 | in every run, whatever the risk limits: with nothing under way no slot waits; it is idle and nothing rests, or live with exactly what rests |
| TradingSessions.ZeroIsAccepted | exchange/matcher/me_order_book.cpp:88-105 | an order of quantity 0 is acknowledged and leaves the book as it was but for the id it uses up |
| TradingSessions.ZeroQuantitySticks | trading/strategy/order_manager.h:61-88 | in every reachable state with no response under way, from any idle slot, at any prices: an order of quantity 0 is accepted without resting, its cancel is rejected, and no move changes the slot any more |
| SessionRuns.MoveSendsIff | trading/strategy/order_manager.h:61-88 | a move sends a new order if and only if the slot is idle, the price valid and the check passed, and exactly the one asked for; it cancels if and only if the slot is live at another price |
| SessionRuns.OrdersWereAsked | trading/strategy/order_manager.h:61-103 | in every session each new order under way and each resting order of the client is one that a move asked for and that passed the check then |
| SessionRuns.NoOrderWithoutPrice | trading/strategy/order_manager.h:61-88 | in every session no order of the client is under way or in the book at the invalid price |
| SessionRuns.SessionIsRun | exchange/matcher/matching_engine.h:66-77 | in every session the exchange's book is that of an admissible run, and what the client heard or has under way is exactly what that run sent it, in order |
| SessionRuns.PositionIsExecuted | trading/strategy/trade_engine.cpp:122-131 | the known position is what was executed on the buy side less the sell side over the responses heard, the true one the same over all that the exchange sent |
| SessionRuns.ExecutionsStayLimited | trading/strategy/risk_manager.h:48-58 | with limits that together fit 31 bits, what the exchange executed for the client never leaves the position limit |
| SessionRuns.FillsAreNet | trading/strategy/position_keeper.h:39-44 | the position of the fills among some responses is what these report bought less what they report sold |
| SessionRuns.KeepPosition | trading/strategy/trade_engine.cpp:122-131 | the position keeper told of the fills heard holds the session's position |
| PositionKeepers.PositionInfo.Enter | trading/strategy/position_keeper.h:39-61 | position, open costs and realised profit after a fill are those of the average-price account |
| PositionKeepers.PositionInfo.AddFill | trading/strategy/position_keeper.h:39-80 | after any history: realised profit is cash plus open buy cost minus open sell cost, total profit is cash plus position at the price of the fill |
| PositionKeepers.PositionInfo.UpdateBBO | trading/strategy/position_keeper.h:82-104 | a quote with two valid prices values an open position in their middle, any other leaves the profit as it was; the identities stay |
| PositionKeepers.ReducedBalanced | trading/strategy/position_keeper.h:49-58 | reducing, closing or turning a position realises the difference to its average price on what is closed |
| LFQueues.DoKeeps | common/lf_queue.h:17-38 | every atomic operation of either side keeps the queue's invariant |
| LFQueues.ReadsArePrefix | common/lf_queue.h:17-38 | in every interleaving the values read are a prefix of those written, given a free slot when a write starts; the check before the decrement holds |
| LFQueues.ReadsArePrefixIff | common/lf_queue.h:17-38 | for every capacity: reads are a prefix of writes in all interleavings if and only if writes wait for a free slot |
| LFQueues.ReleasedSlotStays | exchange/market_data/market_data_publisher.cpp:27-33 | given two free slots, a released slot keeps its value until the consumer's next read |
| LFQueues.ReleasedSlotStaysIff | exchange/market_data/market_data_publisher.cpp:27-33 | for every capacity: a released slot keeps its value in all interleavings if and only if writes wait for two free slots |
| LFQueues.ReleasedSlotOverwritten | common/lf_queue.h:17-38 | for every capacity, with at most one free slot required a released slot is overwritten in some interleaving |
| LFQueues.UnreadSlotOverwritten | common/lf_queue.h:17-24 | for every capacity, with none required a value is read that was not written first |
| LFQueues.LFQueue.Write | common/lf_queue.h:17-24 | appends to the contents |
| LFQueues.LFQueue.UpdateReadIndex | common/lf_queue.h:30-34 | removes the oldest element and leaves its slot's value in place |
| Framing.FramesConcat | exchange/order_server/order_server.h:55-85 | cutting frames from a residue and later bytes is cutting the whole |
| Framing.ChunksDoNotMatter | exchange/order_server/order_server.h:55-85 | for any split into chunks the frames and the residue are those of the whole stream |
| Framing.FramesOfPrefix | exchange/order_server/order_server.h:57-58 | the frames of a prefix of a framed stream are the first ones sent, all of them when everything arrived |
| Framing.TCPSocket.Store | common/tcp_socket.cpp:22-28 | received bytes are appended to the buffer |
| Framing.TCPSocket.Shift | exchange/order_server/order_server.h:83-84 | the residue moves to the front; source and target ranges do not overlap |
| OrderServers.TakeAllKeepsNumbered | exchange/order_server/order_server.h:61-81 | whatever arrives, the accepted requests of every client carry 1, 2, 3, ... |
| OrderServers.ClientIsServed | exchange/order_server/order_server.h:51-86 | under any chunking and interleaving of connections, a client alone on its id that numbers its requests has exactly those accepted, in order |
| Connections.ClientIsBound | exchange/order_server/order_server.h:61-81 | whoever else uses its id: a client is bound to the connection that carried its first request, and accepted of it are exactly the requests in turn in the stream of that connection |
| Connections.InTurnIs | exchange/order_server/order_server.h:72-81 | the requests in turn are the client's in their order, numbered 1, 2, 3, ..., and none that is next is passed over |
| Connections.OtherConnection | exchange/order_server/order_server.h:65-70 | requests on another connection leave what is accepted of a bound client, its number and its connection alone |
| Connections.AcceptedArrived | exchange/order_server/order_server.h:78-81 | what is accepted is what arrived, with the time of its arrival |
| OrderServers.OrderServer.TakeRequest | exchange/order_server/order_server.h:58-81 | one request is bound to its connection, checked and queued, or ignored; one on another connection than its client's changes nothing; room in the sequencer is needed only if it is accepted |
| OrderServers.OrderServer.RecvCallback | exchange/order_server/order_server.h:51-86 | takes all whole frames in order and keeps the residue; room in the sequencer is needed only for what is accepted |
| OrderServers.OrderServer.RecvFinishedCallback | exchange/order_server/order_server.h:89-91 | everything pending is published in order of receive time, nothing accepted is lost |
| FIFOSequencers.OrderIsDeterminedIff | exchange/order_server/fifo_sequencer.h:36 | a batch has one possible order if and only if no two different requests share a receive time |
| FIFOSequencers.SortSorts | exchange/order_server/fifo_sequencer.h:36 | from any arrangement the sort yields a permutation in order of receive time |
| FIFOSequencers.SortedStays | exchange/order_server/fifo_sequencer.h:36 | every outcome that an unstable sort may have is reached from some arrangement |
| FIFOSequencers.FIFOSequencer.AddClientRequest | exchange/order_server/fifo_sequencer.h:22-27 | appended while there is room |
| FIFOSequencers.FIFOSequencer.SequenceAndPublish | exchange/order_server/fifo_sequencer.h:30-50 | sorts the batch from any arrangement, publishes the permutation in order of receive time and empties the batch |
| OrderGateways.EveryClientNumbered | exchange/order_server/order_server.h:33-46 | every client is sent exactly its own responses, in order, numbered 1, 2, 3, ... |
| OrderGateways.ResponsesArrive | trading/order_gw/order_gateway.cpp:32-61 | under any chunking of the byte stream, what was numbered for a client is delivered to it in order, completely once all bytes arrived |
| OrderGateways.DeliveredInTurn | trading/order_gw/order_gateway.cpp:38-56 | of any messages exactly responses to the own id numbered 1, 2, 3, ... are delivered, in order, and none that is next is passed over |
| OrderGateways.RequestsArrive | trading/order_gw/order_gateway.cpp:19-27 | under any chunking the exchange accepts exactly the client's requests in the order sent, as far as they arrived |
| OrderGateways.OrderGateway.SendRequests | trading/order_gw/order_gateway.cpp:19-27 | the queued requests as frames, numbered on |
| OrderGateways.OrderGateway.RecvCallback | trading/order_gw/order_gateway.cpp:32-61 | takes all whole frames in order, delivers those with its id and the expected number, and keeps the residue |

## Left out

- Sockets, epoll, multicast membership, timestamps, threads and the main programs: operating-system calls. The network is a lossy or ordered channel of messages or bytes.
- Logging and all string conversions.
- Floating-point rounding and NaN in profit and average prices: real numbers instead; positions and volumes do not overflow.
- The strategies and the feature engine: they are arbitrary callers of `moveOrders`, with any prices, any profit and a positive quantity.
- The matching engine's choice of the book by ticker and its thread: `MatchingEngines` has its loop on one book.
- `Slot` takes the remainder that is never negative. For a negative price, which the program converts to an unsigned 64-bit number first, that is the same slot when the size of the index divides 2^64, as its 256 does.
- Byte layouts: a frame is a fixed number of bytes with an abstract decoding.
- Weak memory ordering: the atomics are sequentially consistent. A write to a slot is one step.
- Client and order ids outside their arrays, which the program indexes with or without a range check: lookups are maps, and only the client book and the synthesizer bound the order ids.
- Arrays without an initialiser are taken to start null or zero.
- The exchange does not reject a new order whose key is live; freshness of keys is a precondition (and is proved of the client's own ids in `TradingSessions`).
- The snapshot synthesizer's order pool and its thread: live orders are map values, a cycle is taken between two messages.
- The consumer's and the sequencer's output queues are sequences of what was written to them; `LFQueues` has the queue itself.
- `TradingSessions` follows one ticker; other tickers only use up order ids. The gateway's and the server's transport between client and exchange is proved separately in `OrderGateways`.
- The whole-run theorems about the exchange and the sessions range over `Matching.Process`. The code computes it as long as, at each request, there is room for a remainder and its slot is free (`MatchingEngines.RunRequests`); what a run does after a clash is not followed.
- FIFOSequencers.FIFOSequencer.SequenceAndPublish: runs a sort of its own from an arrangement of the batch that is a parameter, through which every outcome of an unstable sort is reached; the library's algorithm is not modelled.
- Removal of connections by the TCP server, and rejects the server's comments announce for later.
