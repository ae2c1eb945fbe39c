# Algo-Trade-Sim positions ledger and pipeline, modelled in Dafny

This project models the trading core of Algo-Trade-Sim. It has two parts.

The first part is the positions ledger, `PositionsManager` in positions_manager.py. The ledger holds:

- the open positions per identifier, in opening order;
- the last price per identifier;
- the append-only trade log;
- the realized PnL total.

Its operations are:

- `update_position` opens a long position for a "BUY" signal and a short one for any other signal.
- `update_market_price` records a price and then runs the auto-close scan. The scan walks the identifier's positions with an index and pops each position whose target or stop the price reaches. It logs a trade record for each one and adds its PnL to the total.
- `get_trade_log` and `get_realized_pnl` read the results.

The second part is the sequential meaning of the pipeline loops in client.py, over finite message sequences:

- `pubsub_manager` is the broadcaster. It copies every message up to and including the first "EOD" to every subscriber queue.
- `subscriber_worker` is the strategy worker. For each tick it first reports the price to the ledger, then asks its strategy, and opens a position when the answer carries a truthy signal. It stops at "EOD", and returns at once when its strategy name is unknown.

Modules:

- `Positions` (positions.dfy) holds the entities and the close rule. It has the `Position` and `TradeRecord` datatypes, the close rule (`CloseReason`, target before stop) and the PnL (`Pnl`). It also defines the two-pass meaning of the scan as a stable partition `Kept` / `Closed`, the trade records a close produces (`Records`), and their PnL total (`SumPnl`).
- `PositionsManager` (positions_manager.dfy) holds the `Ledger` state and its operations.
  - The operations are pure functions (`UpdateMarketPrice`, `UpdatePosition`, `GetTradeLog`, `GetRealizedPnl`).
  - `Valid` is the conservation invariant: the realized total equals the sum of the logged PnLs.
  - The scan is also written as the source's in-place loop, `ScanPositions` / `AutoCloseScan`. That loop is proved equal to the two-pass definition.
  - The ledger calls a worker makes are values (`LedgerCall`). `ApplyAll` serves a sequence of them in order.
- `PubSub` (pubsub.dfy) holds the broadcaster: the meaning `Forwarded` and the loop `PubSubManager`.
- `Worker` (worker.dfy) holds the strategy worker.
  - The strategy is an opaque stateful oracle: a state `S` and a step function from a price to the next state and an optional answer `Advice(signal, target, stopLoss)`.
  - The strategy registry is a map from names to initial states.
  - `Trace` is the sequence of ledger calls the worker makes.
  - `SubscriberWorker` is the worker loop.
- `Pipeline` (pipeline.dfy) composes the parts, from messages in to trade log and realized PnL out. It also replays an end-to-end example of a long opened at 100 and closed at 111.

Time is a parameter.

- A ledger operation takes the reading `now` that the source gets from `time.time()`.
- The worker takes a clock `clock: nat -> real`, read once per message, by message position.

## Model

| member | source | states |
|---|---|---|
| Positions.SideOf | positions_manager.py:62 | the side is long exactly when the signal is "BUY"; every other signal gives a short |
| Positions.CloseReason | positions_manager.py:107-121 | a long closes iff price >= target or price <= stop, and a short iff price <= target or price >= stop; the exit is reported as a target hit whenever the target is reached, and as a stop hit only when the target is not |
| Positions.Pnl | positions_manager.py:155-171 | the PnL is positive exactly when the price moved in the side's favour and zero exactly when exit equals entry; entry + pnl == exit for a long, and exit + pnl == entry for a short |
| Positions.ExitPnlBounds | positions_manager.py:107-121 | a target exit realizes at least the PnL the target level promised, and a stop exit at most the PnL of the stop level, since the exit is the tick price, which may lie beyond the level |
| Positions.ExitPnlSign | positions_manager.py:107-121 | with the stop and target on the usual sides of the entry, a target exit never loses and a stop exit never gains |
| Positions.LongExamples | positions_manager.py:107-114 | long at 100, target 110, stop 90: 110 closes on the target with PnL 10, 85 closes on the stop with PnL -15, and 105 keeps it open |
| Positions.ShortExamples | positions_manager.py:115-121 | short at 100, target 90, stop 110: 88 closes on the target with PnL 12, 112 closes on the stop with PnL -12, and 100 keeps it open |
| Positions.PartitionStep | positions_manager.py:123-146 | examining one more position puts it on exactly one side of the split: on the closed side if it reaches a level, otherwise on the kept side |
| Positions.PartitionMembers | positions_manager.py:123-146 | a position stays open iff it was open and does not reach a level, and it is closed iff it was open and reaches one |
| Positions.PartitionIsExact | positions_manager.py:123-146 | the kept and closed positions together are exactly the original ones, as a multiset, so the open count plus the closed count equals the original count |
| Positions.KeptIsStable | positions_manager.py:107-146 | scanning the kept positions again at the same price keeps all of them and closes none |
| Positions.PartitionOpenedBy | positions_manager.py:139 | a bound on the opening times of the positions holds for both the kept and the closed ones |
| Positions.Records | positions_manager.py:133-142 | one record per closed position, in the same order, carrying its side, entry and opening time, the exit price, the PnL and the close time |
| Positions.SumPnlAppend | positions_manager.py:131 | the PnL total of two logs one after the other is the sum of their totals |
| PositionsManager.Empty | positions_manager.py:22-32 | a fresh ledger has no positions, no prices, an empty trade log and a zero realized total, and it satisfies the conservation invariant |
| PositionsManager.AutoClose | positions_manager.py:86-150 | the scan never changes the prices or the set of identifiers, and never touches another identifier's positions; with no position list or no price for the identifier it changes nothing |
| PositionsManager.UpdateMarketPrice | positions_manager.py:35-45 | the price of the identifier becomes `price`, and other prices are unchanged; no identifier gains or loses a position list, and other identifiers' positions are untouched; with no list for the identifier only the price changes |
| PositionsManager.UpdateMarketPriceCloses | positions_manager.py:86-150 | the positions left open are exactly those that do not reach a level, in their original order; the old log is kept as a prefix, and the appended records are exactly the records of the closed positions, in order, at the update's price and time; the open count plus the new-record count equals the old open count; the total grows by exactly the new records' PnL |
| PositionsManager.UpdatePosition | positions_manager.py:47-74 | exactly one position is appended at the tail of the identifier's list, and the earlier ones are kept in order; it is long iff the signal is "BUY" and stores the entry price, the target, the stop and the open time; other identifiers, the prices, the log and the total are unchanged |
| PositionsManager.GetTradeLog | positions_manager.py:173-180 | the result is the ledger's complete trade log, in close order, and on a valid ledger its PnLs add up to the realized total |
| PositionsManager.GetRealizedPnl | positions_manager.py:182-189 | on a valid ledger the realized total equals the sum of the PnLs of the logged trades |
| PositionsManager.CloseDecision | positions_manager.py:107-121 | the nested per-side tests answer true exactly when the close rule holds |
| PositionsManager.ScanCloses | positions_manager.py:123-144 | popping a closing position at the index, logging its record and adding its PnL advance the loop state by one examined position without moving the index |
| PositionsManager.ScanKeeps | positions_manager.py:145-146 | stepping the index over a position that stays open advances the loop state by one examined position |
| PositionsManager.ScanEnds | positions_manager.py:99 | when the index reaches the end of the working list, every original position has been examined |
| PositionsManager.ScanOne | positions_manager.py:100-146 | one pass of the loop body advances the loop state by exactly one examined position and shrinks the remaining work |
| PositionsManager.ScanPositions | positions_manager.py:98-146 | the in-place pop loop leaves exactly the positions that do not reach a level, in order, skipping none; it appends exactly the closed positions' records in their original order and adds exactly their PnL to the total |
| PositionsManager.AutoCloseScan | positions_manager.py:78-150 | the source's scan, early return included, gives the same ledger as the two-pass stable partition |
| PositionsManager.UpdateMarketPriceScan | positions_manager.py:35-45 | recording the price and then running the in-place loop gives exactly the ledger of the functional price update, with all its closing guarantees |
| PositionsManager.UpdateMarketPriceKeepsValid | positions_manager.py:125-142 | a price update keeps the realized total equal to the sum of the logged PnLs, and keeps every logged PnL the one its side, entry and exit give |
| PositionsManager.ApplyKeepsValid | positions_manager.py:35-74 | either ledger operation keeps the conservation invariant and leaves the existing log in place |
| PositionsManager.ApplyAllKeepsValid | positions_manager.py:28-32 | any sequence of calls keeps the conservation invariant, and the log only grows at its end |
| PositionsManager.RepeatedPriceIsIdempotent | positions_manager.py:123-146 | a second price update at the same price leaves the ledger exactly as the first one left it: nothing more closes and nothing is logged |
| PositionsManager.NoPositionsOnlyPrice | positions_manager.py:86-87 | with no open position for the identifier, a price update changes only its price: no record, no PnL |
| PositionsManager.PriceUpdateKeepsStamps | positions_manager.py:126-140 | a price update served at or after every reading the ledger holds logs trades that close no earlier than they opened |
| PositionsManager.PositionUpdateKeepsStamps | positions_manager.py:63-70 | opening a position at or after every reading the ledger holds keeps all readings bounded by the new one |
| PositionsManager.ApplyAllKeepsStamps | positions_manager.py:139-140 | calls served with readings that never decrease log every trade with its exit time no earlier than its entry time |
| PubSub.Forwarded | client.py:14-24 | the broadcaster takes an in-order prefix of the input, with no drops or duplicates; every message but the last is a tick; the last is the marker exactly when the input contains one; without a marker everything is taken |
| PubSub.ForwardedUpToFirstEod | client.py:15-21 | the forwarded messages are the input up to and including the first marker |
| PubSub.ForwardedIgnoresTail | client.py:17-21 | what follows the first marker is never forwarded, whatever it is |
| PubSub.PubSubManager | client.py:14-24 | every subscriber queue receives exactly the forwarded prefix, so all queues are identical and the marker is the last message, sent once; the loop takes exactly that many messages and stops iff the input has a marker |
| Worker.TickCalls | client.py:43-55 | a tick always causes the price update first; an open at the tick's own price follows exactly when the strategy answered with a truthy signal |
| Worker.HandleTick | client.py:43-55 | the worker's per-tick body makes exactly the tick's calls and moves the strategy to its next state |
| Worker.TraceAdvance | client.py:35-55 | handling one tick moves its calls from the calls still to come to the calls already made |
| Worker.TraceOpensAfterPriceUpdate | client.py:46-55 | every open comes directly after the price update of the same tick, with the same identifier, price and reading, so a new position is first checked at the next price update |
| Worker.TraceSeesOnlyForwarded | client.py:35-39 | the worker makes the same calls from its queue as from the broadcaster's forwarded prefix of it |
| Worker.TraceIgnoresAfterEod | client.py:36-39 | messages after the first marker cause no ledger call |
| Worker.TraceStamps | client.py:35-55 | with a clock that never runs backwards, the readings on the worker's calls never decrease |
| Worker.SubscriberWorker | client.py:27-55 | an unknown strategy name ends the worker before it takes any message, with no ledger call; otherwise the worker makes exactly its trace of calls, takes the forwarded prefix of its queue, and stops iff it met a marker |
| Worker.WorkerStops | client.py:35-39 | the loop ends just past the first marker, or at the end of a queue without one |
| Pipeline.Run | client.py:131-169 | the end-to-end ledger satisfies the conservation invariant; with an unknown strategy name it is the fresh ledger |
| Pipeline.RunPipeline | client.py:131-169 | broadcasting to the one subscriber queue changes nothing; the final log and total are those of the end-to-end ledger, the total equals the sum of the logged PnLs, and every logged PnL matches its trade; with an unknown strategy name both are empty |
| Pipeline.RunIgnoresAfterEod | client.py:14-39 | messages after the first marker never change the outcome |
| Pipeline.RunStampsOrdered | positions_manager.py:126-140 | with a clock that never runs backwards, every logged trade exits no earlier than it entered |
| Pipeline.ScenarioHolds | positions_manager.py:107-121 | prices strictly between the stop 95 and the target 110 leave the scenario's long open and log nothing |
| Pipeline.LoneClose | positions_manager.py:123-150 | a lone position that reaches a level empties its list and logs its one record, with its PnL as the total |
| Pipeline.LongScenario | client.py:35-55 | ticks for "X" at 100, which opens a long with target 110 and stop 95, then 102, 108, 111 and the marker, log one long trade from 100 to 111 with PnL 11; the realized total is 11 |

## Left out

- Concurrency is not modelled. This covers the multiprocessing `Manager`, the shared dict and list, the PnL `Lock`, the processes, the queues and `join`. The ledger is single-threaded state, and the calls it serves are a sequence of values, each ledger call served whole before the next. That holds for `main`, which starts a single worker (client.py:144,153). It does not hold for several workers: `update_position` and `_auto_close_positions` copy the position list and write it back without a lock (positions_manager.py:60,74 and 93,150), so two calls can interleave, and a stale write-back can restore a position that was already closed and logged, which would then be logged a second time. `ApplyAllKeepsValid` promises nothing about that case.
- The socket client `socket_reader` and server.py are not part of this model. They are socket I/O, asyncio and CSV loading.
- Strategy signal math is not modelled. That covers the rolling mean and standard deviation of the Bollinger and volume-fade strategies, which use floating-point `** 0.5`. A strategy is an opaque oracle, and `BuyOnFirstTick` is only the stand-in the scenario uses.
- JSON decoding and the dict lookups of the tick fields are not modelled; a message is an already decoded `Tick(identifier, price)`. The source's `json.loads` has no guard (client.py:41), so a malformed message would end the worker with an exception. That path is not modelled.
- `time.time()` is a parameter, read once per message by the worker.
- PositionsManager.UpdateMarketPrice: every position closed by one price update gets the same exit time. The source reads the clock again for each closed position, so its exit times within one scan may differ.
- Worker.SubscriberWorker: a strategy answer with a truthy signal but no stop level cannot be written, because `Advice.stopLoss` is a number. The bundled Bollinger strategy always sets a stop when it signals. An answer with no signal opens nothing, whatever its levels.
- Printing is not modelled: the open and close log lines, the unknown-strategy message and the final summary.
- Prices and PnL are exact reals. Python's double rounding is not modelled, and neither are NaN and infinity. `json.loads` accepts `NaN`, and server.py's `json.dumps` emits it for a missing cell, so a tick can carry a NaN price. Every comparison of the close rule is false for NaN, so such a tick closes nothing; a real-valued price cannot express it.
- The side is the datatype `Long | Short`. The source stores the strings "LONG" and "SHORT", and only ever stores those two. That makes the 0.0 fallback of `_calculate_pnl` unreachable, and the datatype cannot express it.
- Input with no "EOD" makes the source block forever on an empty queue: when the server closes the connection, the socket client stops without forwarding a marker (client.py:88-91). The broadcaster and worker models instead return at the end of their input with `stopped` false.
- The source gives no guarantee about how two positions' open times compare, so "no identifier/open-time pair is logged twice" is not proved. What is proved is that each scan logs every position it removes exactly once (`PartitionIsExact`, `UpdateMarketPriceCloses`).
- `update_position` takes no strategy name (positions_manager.py:47), so a position does not record which strategy opened it, and neither does the model.
- `main` prints only the trade log. `RunPipeline` also reads the realized total, to state the conservation law at the output.
