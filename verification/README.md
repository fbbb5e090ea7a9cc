# Verified model of a single-symbol matching engine

A Dafny model of a limit order book with its risk gate, matching thread, market-data feed, wire codec and
record/replay, and proofs of what they promise. `dafny verify dfyconfig.toml` checks everything.

## How it is built

* `Types`, `Queues`, `BookViews`, `Matching`: the plain book. Each side is one sequence of orders, best price first
  and oldest first within a price; each account has its slot array as a sequence of ids. Every operation is a function
  from a book to a book and the events it emits. The `emit` callback becomes that output sequence, which is faithful
  because no callback reads the book.
* `Arenas`, `BookStore`, `LevelWalks`, `SortedKeys`, `OrderBooks`, `Engines`: the book as the program stores it, with
  arena slots and free list, doubly linked level chains, two price maps, order index, account entries with
  back-indices and cached counts, quantities and notionals. `BookStore.Stores` is the representation invariant, the
  runtime checker of `crates/core/src/book.rs:1071-1183` as one predicate; every method of `Book` keeps it and refines
  its plain counterpart.
* `Risk`, `Gate`, `Admission`, `Runs`, `Room`, `LiveStream`: the gate, one step of the whole system, and runs of any
  length.
* `Rules`, `Trades`, `Touches`, `SnapshotRules`, `RoutingRules`, `Layout`: what each command, trade, touch, snapshot row,
  delivery and byte is, stated about the whole step in terms of the book before it.
* `Sweeping`, `OrderTypes`, `Shadows`, `Ledgers`, `Priority`, `Routing`, `StaleRoutes`, `Strays`, `Drain`, `Caps`,
  `Totals`, `SnapshotTotals`, `FirstSeen`, `MarketData`, `Prices`, `Widths`, `Examples`: the theorems, each about all
  books or all runs. They carry over to the stored book because `MatchingThread.Run` and `ProcessCommand` refine the plain run.
* `Feed`: the drop-oldest queue as a push/pop protocol under every interleaving.
* `Codec`, `Inbound`, `Outbound`, `Framing`, `Readers`: bytes, messages, framing and the connection reader.
* `MatchingThreads`, `Replays`: the live thread with its recorder, and replay.

## Where the code and its promises differ

The model follows the code. Each difference is proved with its exact condition, most with a concrete input.

* `decode_command` calls its last arm unreachable, but the length check before it accepts outbound tags
  (`CommandPanicsIff`). So an outbound message sent to the server stops that connection's reader (`ReaderPanicsIff`),
  and a damaged recording can panic a replay that is documented never to (`ReplayCrashesIff`, `ReplayCanCrash`).
* A recording cut off inside its last frame replays without an error (`ReplaySucceedsIff`).
* An amend may name price zero, which the decoder refuses for new orders (`ZeroPriceIff`, `ZeroPriceExample`). The
  walk behind a snapshot asserts that no resting price is zero, so the next snapshot stops the matching thread, live
  and in replay, after its first rows (`StallIff`, `WalkLevel`, `Handle`).
* Best bid and best ask are added in 64 bits. An ask amended far away makes the mid wrap, and the band then admits what
  it should refuse (`MidExactIff`, `ReferenceInSpreadIff`, `MidCanWrap`).
* An amend may take a level's 64-bit total past its width (`TotalsFitIff`, `TotalCanOverflow`). In runs without
  exposure-raising amends nothing overflows (`RunFits`, `RunStaysSound`).
* The notional cap is not checked for amends (`AmendCapIff`, `AmendCanExceedCap`). An account swollen by amends can make
  the gate's 128-bit sum wrap, and the cap then admits a new order too (`GateSumIff`, `NotionalVerdictIff`,
  `NotionalWithinIff`, `SumCanWrap`).
* The routing table is a superset of the resting orders, not equal to them (`StaleEntryIff`, `StaleEntryExists`,
  `TableIsRestingAndStrays`).
* Decoding an event ignores the payload of an absent field, so encoding is not a bijection on frames
  (`EncodeDecodedEventIff`).
* A subscriber queue of capacity zero misnumbers (`StreamSeqExactIff`, `ZeroCapacityOverflows`).

## Model

| member | source | states |
|---|---|---|
| Sweeping.SweepClosedForm | crates/core/src/book.rs:315-422 | Price-time matching in closed form, with the reports written out: an order of the opposite queue within the taker's limit is reached exactly when less than the taker's quantity of foreign orders lies ahead of it; own orders reached are cancelled, foreign ones are dealt with oldest first at their own price, only the last may be split, everything behind is untouched |
| Trades.RunMakersPrice | crates/core/src/book.rs:365-411 | For every run, each print of each command follows its two fills, and all three carry the price at which the maker rested just before that command, on the other side, within the taker's limit, in the maker's quantity or less |
| Trades.ProcessMakersPrice | crates/core/src/book.rs:365-411 | The same for one command from any well-formed book |
| Trades.ReachedOrdersTrade | crates/core/src/book.rs:338-414 | Every order within the limit with less than the taker's quantity of foreign orders ahead of it gets its turn: cancelled if own, otherwise the three written-out events at its own price |
| Trades.LastTradeIsMakers | crates/core/src/book.rs:383-411 | The last trade after a command is the resting price of the last maker it traded with, or unchanged if it printed nothing |
| Sweeping.SweepRemaining | crates/core/src/book.rs:315-422 | What a sweep leaves over is the quantity minus the foreign crossing depth, floored at zero |
| Sweeping.FillableSweepsToZero | crates/core/src/book.rs:438-463 | The fill-or-kill precheck holds if and only if a sweep would leave nothing over |
| Sweeping.SweepLastTrade | crates/core/src/book.rs:365-411 | After a sweep the last trade is the price of its latest print, or unchanged if it printed none; that this is a maker's price is Trades.LastTradeIsMakers |
| OrderTypes.SweepFills | crates/core/src/book.rs:365-411 | The taker's fills of a sweep add up to the quantity it no longer has |
| OrderTypes.FokAllOrNothing | crates/core/src/book.rs:628-671 | Fill-or-kill: filled in full when foreign crossing depth covers it, otherwise one NotFullyFillable and an unchanged book |
| OrderTypes.PostOnlyWalk | crates/core/src/book.rs:502-549 | The self-trade walk cancels exactly the maximal own prefix of the crossing queue in price-time order, and blocks if and only if a foreign order then crosses at the front |
| OrderTypes.OwnPrefixDepth | crates/core/src/book.rs:502-549 | Dropping that prefix changes neither the foreign crossing depth nor the foreign quantity of the side |
| OrderTypes.PostOnlyTakesNothing | crates/core/src/book.rs:710-746 | A post-only order never trades and never changes foreign quantity, whether it rests or is refused after real cancellations |
| OrderTypes.PostOnlyIsGtcIff | crates/core/src/book.rs:710-746 | A post-only order does what a good-till-cancelled one does if and only if it is a duplicate or meets no foreign crossing depth |
| OrderTypes.SamePriceIncrease | crates/core/src/book.rs:794-847 | A same-price quantity increase emits only Replaced without retained priority, trades nothing, and re-enters its own level |
| OrderTypes.JoinsAtBack | crates/core/src/book.rs:149-199 | Behind the place where an order joins, every price is strictly worse: it is last at its own price |
| OrderTypes.ShrinkKeepsPlace | crates/core/src/book.rs:791-821 | A decrease at the same price keeps the order's place, every other order and the account's slot array; whoever comes to trade has the same foreign quantity ahead of it as before |
| OrderTypes.MassCancelEffect | crates/core/src/book.rs:908-928 | One Cancelled per order of the slot array as it was before the call, in that order; the account ends empty and every other account keeps its orders, places and slot array |
| Rules.CancelRule | crates/core/src/book.rs:857-879 | A cancel command takes exactly its order out of its queue, reports Cancelled and moves nothing else; of an order that does not rest it reports UnknownOrderId and moves nothing |
| Rules.MassCancelRule | crates/core/src/engine.rs:98 | A mass-cancel command reports and removes every order of its account in slot-array order, whatever the switch, and every other order keeps its place |
| Rules.GtcRule | crates/core/src/book.rs:553-588 | An admitted good-till-cancelled order meets the other side in closed form, and what depth did not cover joins the back of its own price |
| Rules.IocRule | crates/core/src/book.rs:592-622 | An admitted immediate-or-cancel order meets the other side in closed form and nothing of it rests |
| Rules.MarketRule | crates/core/src/book.rs:677-706 | An admitted market order does the same with every price within its limit |
| Rules.FokRule | crates/core/src/book.rs:628-671 | An admitted fill-or-kill command fills in full when foreign quantity within its limit covers it, otherwise one NotFullyFillable and an unchanged book |
| Rules.PostOnlyRule | crates/core/src/book.rs:710-746 | An admitted post-only command rests whole when no foreign order is within its limit; otherwise WouldCross, the own orders ahead of the first foreign one cancelled |
| Rules.DuplicateRule | crates/core/src/book.rs:553-572 | An admitted new order of any kind under an id that rests is refused as a duplicate and changes nothing |
| Rules.AmendRule | crates/core/src/book.rs:757-847 | An admitted amend: zero quantity and unknown orders are refused with their reasons; a decrease at the same price changes that quantity in place; anything else leaves its place, meets the other side and joins the back of its new price |
| Rules.KillSwitchRule | crates/risk/src/lib.rs:79-90 | A kill-switch command sets the switch and does nothing else; no other command sets it; every command takes one sequence number |
| Priority.RunKeepsPriority | crates/core/src/book.rs:315-422 | For every run and any two orders at one price that rest throughout without giving up their places: the earlier stays ahead, and the later is not filled, not even in part |
| Priority.StepKeepsPriority | crates/core/src/book.rs:149-299 | One command keeps two orders at one price in order if both still rest and neither re-entered |
| Priority.FillsInOrder | crates/core/src/book.rs:365-417 | Whenever the later of two orders at one price is filled as a maker, the earlier one has left the book |
| Runs.RunWf | crates/core/src/book.rs:1071-1183 | Every reachable book satisfies the full invariant of the plain book: sorted FIFO queues, unique keys, positive quantities, uncrossed sides, exact rosters |
| Runs.NeverCrossed | crates/core/src/book.rs:1176-1182 | After every command of every run the best bid is strictly below the best ask, queues are best first and no resting quantity is zero |
| Runs.RunConcat | crates/risk/src/lib.rs:38-52 | Running a concatenation of commands is running its parts one after the other |
| Shadows.EventsRebuildTheBook | crates/core/src/book.rs:388-406 | For every run, folding Accepted, Filled, Cancelled and Replaced events alone rebuilds exactly the map from order to resting quantity |
| Shadows.RunMirrors | crates/core/src/book.rs:553-847 | The same from any state in which the fold already agrees with the book, hence after each command |
| Ledgers.QuantityConserved | crates/core/src/book.rs:2648-2967 | For every run: submitted = 2 * filled + resting + cancelled + discarded, and discarded is exactly what foreign crossing depth left uncovered of admitted immediate and market orders; orders that can rest discard nothing |
| Ledgers.RunConserves | crates/core/src/book.rs:2876-2967 | The ledger stays balanced across any further commands, amend increases counting as submitted and decreases as cancelled, and the discards of the run are read off the books before its commands |
| Ledgers.ProcessConserves | crates/core/src/book.rs:2907-2939 | One command, rejected or not, keeps the ledger balanced, post-only refusals after real cancellations included; only immediate and market orders may book a discard |
| Ledgers.ProcessDiscards | crates/core/src/book.rs:2876-2905 | What one command discards: for an admitted immediate or market order its quantity less the foreign crossing depth, otherwise nothing |
| Routing.RoutingNeverMisses | crates/gateway/src/matching.rs:206-304 | Over every run the table holds each resting order under the connection that last submitted or amended it; whatever comes next, each report about another order finds its entry and goes to that order's owner, so the fallback is never taken |
| RoutingRules.RoutingRule | crates/gateway/src/matching.rs:234-304 | Over every run, each report of the next request is delivered in order: about the order the request names, and snapshot rows, to the requester; about any other order, to the connection that last submitted or amended that order successfully |
| Routing.ServeAllCovers | crates/gateway/src/matching.rs:206-304 | From any covered state, serving any requests keeps every resting order covered under its owner |
| Routing.ProcessServed | crates/gateway/src/matching.rs:234-304 | One command from a covered state is routed soundly and leaves the new book covered |
| StaleRoutes.StaleEntryIff | crates/gateway/src/matching.rs:279-301 | From a table that is exact, a command leaves it exact if and only if it is not an order that trades in part and discards the rest |
| StaleRoutes.StaleRunIff | crates/gateway/src/matching.rs:206-304 | For every run from the start, the table is exact after each prefix if and only if no command of the run leaves an entry behind |
| Strays.TableIsRestingAndStrays | crates/gateway/src/matching.rs:270-303 | For every run an entry is in the table if and only if its order rests or is a stray, a key whose acceptance rested nothing after a fill that left something and that no later event has touched; no stray rests |
| StaleRoutes.StaleEntryExists | crates/gateway/src/matching.rs:279-301 | A concrete immediate-or-cancel order that leaves an entry for an order no longer resting |
| Drain.KillSwitchDrains | crates/risk/src/lib.rs:79-149 | While the switch stays engaged, any commands yield no trade, fill or acceptance, and each side afterwards is a subsequence of the earlier one with unchanged prices and non-increasing quantities |
| Drain.ShrunkLevel | crates/risk/src/lib.rs:117-149 | A side that only shrank shrank level by level: each level's queue is such a subsequence of its own earlier queue |
| Caps.RunOpenCapped | crates/risk/src/lib.rs:153-178 | In every run each account's open orders stay within the maximum, amends included |
| Caps.RunNotionalCapped | crates/risk/src/lib.rs:180-200 | In every run whose amends do not raise their own order's notional, each account's gross notional stays within the maximum, for every maximum that leaves the gate's 128-bit sum room for one more order |
| Caps.AmendCapIff | crates/risk/src/lib.rs:91-105 | The notional cap is not checked for amends: a re-entering amend keeps the book within it if and only if the owner's notional, less what the amend removes, plus what will rest, is within it |
| Caps.AmendCanExceedCap | crates/risk/src/lib.rs:91-105 | A concrete amend that passes the gate and exceeds the notional cap |
| Caps.LevelTotalBounded | crates/core/src/book.rs:157-190 | On a book within the notional cap and with positive prices, a level's total quantity is at most the number of resting accounts times the cap |
| Caps.DefaultTotalsFit | crates/core/src/book.rs:157-190 | On such a book under the default limits that total fits 64 bits for up to 184 467 440 737 accounts; over runs this is Widths.DefaultRunFits |
| Widths.TotalsFitIff | crates/core/src/book.rs:183-190 | From level totals that fit 64 bits, a command leaves them fitting if and only if it is refused or what it would bring to rest, in closed form from the book before it, plus its level's total is within 64 bits |
| Widths.NotionalWithinIff | crates/risk/src/lib.rs:180-200 | From notionals within any 128-bit bound, a command leaves them within it if and only if it is refused or what it would bring to rest keeps its owner within it: with the cap as bound, when the cap holds; with the widest, when the stored notionals are the true ones |
| Widths.PricesWithinCap | crates/core/src/book.rs:157-190 | On a book within the notional cap every resting price is within it |
| Widths.BlockedIffDepth | crates/core/src/book.rs:502-549 | A post-only order is blocked if and only if there is foreign crossing depth |
| Widths.RunFits | crates/core/src/book.rs:157-190 | From an empty book, in every run whose amends name positive prices and raise no order's own notional, entered by accounts whose caps add up within 64 bits: no level total, no mid and no notional sum of the gate overflows |
| Widths.DefaultRunFits | crates/core/src/book.rs:157-190 | The same under the default limits for up to 184 467 440 737 accounts |
| Widths.RunStaysSound | crates/core/src/book.rs:157-190 | In such a run a slot is always to be had, no check of a snapshot fails, and no sum overflows before or after any command |
| Examples.TotalCanOverflow | crates/core/src/book.rs:183-190 | A concrete run: two small offers at one price and one admitted amend take a level's total past 64 bits |
| Examples.MidCanWrap | crates/risk/src/lib.rs:237-245 | A concrete run of three admitted commands after which the mid wraps to 99 and a bid the true mid would refuse is admitted |
| Examples.SumCanWrap | crates/risk/src/lib.rs:197-200 | A concrete run of two admitted commands after which the sum wraps to 1 and an order of notional 2^65 passes a cap of 100 000 000 |
| Examples.WideCapCanFail | crates/risk/src/lib.rs:180-200 | Under the widest cap a concrete new order, with no amend involved, takes its account past it |
| Examples.OfferedReachable | crates/core/src/engine.rs:56-105 | One sell order into an empty book reaches the book the single-step examples start from |
| Room.RunRoomy | crates/core/src/arena.rs:71-90 | In every run of any length, entered by accounts whose open-order limits add up below the number of slots, fewer orders than slots rest before each command |
| Room.DefaultRunRoomy | crates/core/src/arena.rs:71-90 | The same under the default limit for up to 85 899 345 accounts |
| Room.RestingWithin | crates/core/src/arena.rs:71-90 | No more orders rest than the open-order limit times the accounts that have any |
| Room.RunConfined | crates/risk/src/lib.rs:153-178 | Only accounts that submit orders ever have open orders |
| Runs.RoomyIff | crates/core/src/arena.rs:71-90 | Having room is a bound on the orders resting before each command that may take a slot, not on the length of the run |
| OrderBooks.Book.RoomIff | crates/core/src/arena.rs:71-90 | A slot is to be had if and only if fewer orders than slot numbers rest: vacated slots are used again |
| SnapshotTotals.SnapshotDoubleEntry | crates/core/src/book.rs:961-1008 | Price times quantity over level rows equals notional over account rows; order counts equal open-order counts equal the number of resting orders; trailer counts, touch and last trade are exact |
| SnapshotRules.SnapshotRule | crates/core/src/book.rs:961-1008 | A snapshot command row by row: bid levels then ask levels by ascending price, each with side, total and count of all that rests there; each account with a resting order once with its count and notional; a trailer with both touches, last trade and the numbers of rows; nothing else changes |
| SnapshotTotals.AccountsMetExact | crates/core/src/book.rs:961-1008 | The account rows list each account with a resting order, once |
| SnapshotTotals.StallRowsBegin | crates/core/src/book.rs:966-972 | The rows a stalling snapshot has emitted are a proper beginning of the snapshot |
| FirstSeen.AccountsInFirstSeenOrder | crates/core/src/book.rs:961-1008 | The account rows come in the order their accounts are first met walking bids then asks by ascending price, oldest order first |
| MarketData.SubscribersStayCurrent | crates/core/src/engine.rs:44-54 | After every command of every run the latest announced touch is the book's, the latest print is the last trade, and each Trade directly follows two Filled events of different accounts, opposite sides, same price and quantity; what a touch means is Touches.RunAnnouncesTouch |
| MarketData.RunCurrent | crates/core/src/engine.rs:44-54 | The same from any starting state |
| Touches.RunAnnouncesTouch | crates/core/src/book.rs:97-109 | After every run the latest announced touch of a side is None exactly when nothing rests there, otherwise the extreme resting price and the sum of all quantities resting at it |
| Touches.TopIsTouch | crates/core/src/book.rs:97-109 | The top of book has that meaning on every well-formed book |
| Touches.AnnouncedIffMoved | crates/core/src/engine.rs:44-54 | A command announces the touch exactly when it moved it, once, and last |
| Prices.ZeroPriceIff | crates/core/src/book.rs:765-847 | From positive prices, a command leaves positive prices if and only if it is not an amend to price zero that has something left to rest |
| Prices.RunPricesPositive | crates/core/src/book.rs:757-847 | A run whose amends name positive prices never rests an order at price zero |
| Prices.RunNeverStalls | crates/core/src/book.rs:1039-1042 | Such a run never fails the snapshot walk's check for a zero price; that no sum overflows either is Widths.RunStaysSound |
| Prices.StallIff | crates/core/src/book.rs:1015-1065 | From positive prices, a command followed by a snapshot stops the thread if and only if it is an admitted amend that rests at zero |
| Prices.ZeroPriceExample | crates/wire/src/inbound.rs:129-140 | A concrete amend to price zero that decodes from its own encoding, passes the gate and rests |
| Feed.StreamSeqExactIff | crates/marketdata/src/queue.rs:46-67 | Under every interleaving of pushes and pops, delivered sequence numbers are positions among all pushes, gaps equal drops and length stays within capacity, if and only if capacity is at least one |
| Feed.ActAllKeeps | crates/marketdata/src/subscriber.rs:110-116 | Any further interleaving keeps positions, the drop account and the capacity bound |
| Feed.EverySubscriberExact | crates/marketdata/src/subscriber.rs:89-125 | With any number of subscribers joining and leaving, each one's numbers are positions among the broadcasts since it joined |
| Feed.ZeroCapacityOverflows | crates/marketdata/src/queue.rs:46-54 | A queue of capacity zero counts a drop that did not happen: the first event is numbered 2 |
| Framing.ChunkIndependent | crates/wire/src/framer.rs:27-59 | For any cut of a stream into reads, frames, pending bytes and the unknown-tag verdict are those of framing it at once, and frames followed by pending bytes are the bytes read |
| Framing.FramesIff | crates/wire/src/framer.rs:40-59 | One-shot framing is the only split of a stream into well-formed frames and an incomplete tail |
| Framing.UnknownTagIsFinal | crates/wire/src/framer.rs:46-49 | After an unknown tag no later byte yields a frame and the error repeats |
| Framing.AnyChunkingDecodes | crates/wire/src/framer.rs:27-59 | Any chunking of the concatenated encodings of valid commands decodes back to those commands, nothing pending |
| Readers.ValidStreamForwarded | crates/gateway/src/order_entry.rs:98-139 | A stream of valid commands is forwarded as those commands, in order, and nothing else |
| Readers.ReadAllFinal | crates/gateway/src/order_entry.rs:130-137 | Once a reader has died or met an unknown tag, no later byte changes what it passed on |
| Readers.ReaderPanicsIff | crates/wire/src/inbound.rs:102-148 | A reader dies if and only if its peer sends a whole frame with an outbound tag |
| Readers.ForwardsAreValid | crates/gateway/src/order_entry.rs:115-127 | Whatever bytes arrive, only valid commands are forwarded |
| Readers.ItemsFollowFrames | crates/gateway/src/order_entry.rs:115-127 | Frame by frame, what decodes is forwarded as what it decodes to, what does not is refused with the decoder's reason |
| Inbound.DecodeEncoded | crates/wire/src/inbound.rs:23-150 | Every valid command survives encoding and decoding |
| Inbound.EncodeDecoded | crates/wire/src/inbound.rs:23-150 | Every decodable frame is the encoding of what it decodes to, and that is a valid command |
| Inbound.DecodableIff | crates/wire/src/inbound.rs:90-150 | The decodable frames are exactly the encodings of valid commands |
| Inbound.CommandPanicsIff | crates/wire/src/inbound.rs:102-148 | The arm marked unreachable is reached by exactly the well-framed outbound messages |
| Layout.NewOrderLayout | crates/wire/src/inbound.rs:23-45 | Tag, offsets, enum values and byte order of an encoded new order, byte by byte |
| Layout.CommandLayout | crates/wire/src/inbound.rs:46-83 | The same for the other five commands |
| Layout.RefusalReasons | crates/wire/src/inbound.rs:90-150 | Which reason a frame that is no command is refused with |
| Outbound.DecodeEncodedEvent | crates/wire/src/outbound.rs:48-349 | Every stamped event that fits its fields survives encoding and decoding |
| Outbound.EncodeDecodedEventIff | crates/wire/src/outbound.rs:243-349 | A decodable frame is the encoding of what it decodes to if and only if its absent fields are zero-filled |
| Outbound.DecodedFits | crates/wire/src/outbound.rs:243-349 | A decoded event fits its fields and carries an engine sequence exactly when it is an execution report |
| Outbound.EventFramed | crates/wire/src/outbound.rs:48-237 | Every encoded event has the length its tag implies and an outbound tag |
| Outbound.EventPanicsIff | crates/wire/src/outbound.rs:253-346 | Decoding as an event fails outright on exactly the well-framed inbound messages |
| Layout.ReportLayout | crates/wire/src/outbound.rs:48-163 | Tag, offsets, enum values and byte order of the five execution reports |
| Layout.PublicLayout | crates/wire/src/outbound.rs:164-237 | The same for market data and snapshot rows, absent sides zero-filled |
| Layout.ReasonTable | crates/wire/src/codec.rs:118-138 | The reject reasons by number |
| Layout.LittleEndian | crates/wire/src/codec.rs:16-37 | Byte i of a written integer is its i-th base-256 digit from the low end |
| LiveStream.EngineSeqPerCommand | crates/risk/src/lib.rs:38-52 | The events stamped k are exactly what the k-th command emitted, a lone rejection included; stamps run from 1 to the number of commands and never go back |
| MatchingThreads.TrafficIsLive | crates/gateway/src/matching.rs:234-304 | Over every run the return channel carries exactly the execution reports and snapshot rows, in order and under their command's sequence, and the market-data channel exactly the trades and touch changes |
| Replays.ReplayEqualsLive | crates/bin/src/replay.rs:51-116 | Replaying what the matching thread recorded gives the reports it returned under the same engine sequences, the market data it published, and its last trade; a run that stops the live thread stops the replay |
| Replays.ReplayOfRecording | crates/bin/src/replay.rs:59-115 | The replay of a recording is the live stream of its commands, split and numbered per stream, unless they stall |
| Replays.ReplaySucceedsIff | crates/bin/src/replay.rs:59-80 | A replay succeeds if and only if the bytes record valid commands that never stall, whole or cut off inside a last frame; a cut-off frame is dropped silently |
| Replays.ReplayCrashesIff | crates/bin/src/replay.rs:48-80 | A replay panics if and only if a whole frame of the recording carries an outbound tag or its valid commands stall, contrary to the promise beside the function |
| Replays.ReplayCanCrash | crates/bin/src/replay.rs:48-80 | A concrete 33-byte recording that panics |
| Replays.ReplayErrors | crates/bin/src/replay.rs:64-80 | An unknown tag after the last whole frame is reported before everything else, otherwise the reason of the first frame that does not decode |
| Gate.BandEdges | crates/risk/src/lib.rs:204-217 | The price band in hundredths of a tick: the upper edge is exact, the lower is rounded down by less than one tick |
| Gate.MidExactIff | crates/risk/src/lib.rs:242 | The mid added in 64 bits is the true mid, and lies at or above the bid and below the ask, if and only if the two prices add up within 64 bits |
| Gate.GateSumIff | crates/risk/src/lib.rs:197-198 | The notional sum added in 128 bits is the true one if and only if that fits, and is the same whether or not the stored notional has wrapped |
| Gate.NotionalVerdictIff | crates/risk/src/lib.rs:197-200 | The notional verdict is the true one if and only if the sum fits or wraps to a value beyond the cap |
| Gate.ReferenceInSpreadIff | crates/risk/src/lib.rs:237-245 | Without a last trade the reference exists exactly on a two-sided book, and is the true mid inside the spread if and only if best bid and best ask add up within 64 bits |
| Gate.TouchInBandIff | crates/risk/src/lib.rs:204-217 | Where best bid and best ask add up within 64 bits, a touch price is in band of the mid exactly when its distance is within the percentage |
| Gate.KillOnlyNarrows | crates/risk/src/lib.rs:79-149 | Engaging the switch only narrows what is admitted, to exactly the commands that add no exposure |
| Admission.AdmissionIff | crates/risk/src/lib.rs:153-219 | With the switch off a new order is let in exactly when a slot is free if it could rest, there is a price to value it at, the 128-bit sum is within the cap, and a limit price is within the written-out band of last trade or mid; the first that fails names the reason |
| Admission.RefusedByGate | crates/risk/src/lib.rs:38-52 | The step of a new order: refused with that reason and nothing changed, or applied |
| Admission.SwitchRefusesIff | crates/risk/src/lib.rs:117-149 | With the switch on exactly new orders and amends that reprice or grow a resting order are refused, with KillSwitchActive |
| Gate.RefusalChangesNothing | crates/risk/src/lib.rs:38-52 | A refused command takes a sequence number, changes nothing else, and yields one Rejected for its own order |
| Gate.RefusalsLeaveNoTrace | crates/risk/src/lib.rs:38-52 | Over every run, dropping the commands the gate refuses ends in the same book and switch |
| BookStore.UnlinkStores | crates/core/src/book.rs:212-270 | Unlinking a node, with the swap-removal fix-up, keeps the whole representation invariant and is removal from the plain book |
| BookStore.RestStores | crates/core/src/book.rs:149-199 | Linking a new node keeps the representation invariant and is joining at the back of its level |
| BookStore.RequantifyStores | crates/core/src/book.rs:278-299 | Changing a resting quantity keeps the representation invariant and is that change in the plain book |
| BookStore.StoredUnlinkable | crates/core/src/book.rs:212-270 | Under the invariant every resting order's level, account entry and index entry exist and cover it, so no lookup of unlink can fail |
| BookStore.IndexIsRests | crates/core/src/book.rs:1107-1135 | The order index holds exactly the resting orders |
| BookViews.RemoveWf | crates/core/src/book.rs:212-270 | Removal keeps the plain book well-formed |
| BookViews.RestWf | crates/core/src/book.rs:149-199 | Resting a fresh order that crosses nothing keeps the plain book well-formed |
| BookViews.SetQtyWf | crates/core/src/book.rs:278-299 | A positive new quantity keeps the plain book well-formed |
| BookViews.DismissSpec | crates/core/src/book.rs:250-267 | Swap-removal drops exactly the given id from the slot array and keeps it free of repeats |
| Matching.SweepWf | crates/core/src/book.rs:315-422 | A sweep keeps the book well-formed and, when it leaves something over, nothing crosses the limit any more |
| Matching.SweepRests | crates/core/src/book.rs:315-422 | A sweep brings no order into the book |
| Matching.SweepFrame | crates/core/src/book.rs:315-422 | A sweep leaves the taker's own side untouched |
| Sweeping.DepthIsAhead | crates/core/src/book.rs:438-463 | The foreign crossing depth is the foreign quantity ahead of the end of the crossing prefix |
| Matching.StpClearWf | crates/core/src/book.rs:502-549 | The self-trade walk keeps the book well-formed and, unless blocked, leaves nothing crossing |
| Matching.ApplyWf | crates/core/src/engine.rs:44-105 | Every command keeps the book well-formed |
| LevelWalks.LevelPricesExact | crates/core/src/book.rs:438-463 | The level prices of a sorted queue are its distinct prices, best first |
| LevelWalks.KeysAscending | crates/core/src/book.rs:966-967 | A side's price keys in ascending order are its level prices, best first for asks and reversed for bids |
| OrderBooks.KeysBestFirst | crates/core/src/book.rs:438-463 | The stored price keys of a side, ordered, are the level prices of its queue |
| Arenas.Arena.Insert | crates/core/src/arena.rs:71-80 | The slot handed out was vacant, now holds the node, every other slot is unchanged and the free list stays exact |
| Arenas.Arena.FreeSlot | crates/core/src/arena.rs:83-90 | The slot is vacated, every other slot is unchanged and the free list stays exact |
| OrderBooks.Book.constructor | crates/core/src/book.rs:64-74 | An empty book satisfies the representation invariant |
| OrderBooks.Book.Best | crates/core/src/book.rs:78-86 | The extreme key of a price map is the head of the plain queue |
| OrderBooks.Book.TopOfBook | crates/core/src/book.rs:97-109 | Cached level totals give the plain book's touch, whose meaning is Touches.TopIsTouch |
| OrderBooks.Book.AccountOpenOrderCount | crates/core/src/book.rs:113-117 | The cached slot count is the number of the account's open orders |
| OrderBooks.Book.GrossNotional | crates/core/src/book.rs:121-125 | The cached notional is the sum of price times quantity over the account's orders on both sides; when that fits 128 bits is Widths.NotionalWithinIff |
| OrderBooks.Book.RestingOrderSnapshot | crates/core/src/book.rs:132-140 | Price and quantity of a resting order, None exactly when it does not rest |
| OrderBooks.Book.RestOrder | crates/core/src/book.rs:149-199 | The concrete step refines joining the plain queue |
| OrderBooks.Book.Unlink | crates/core/src/book.rs:212-270 | The concrete step refines removal |
| OrderBooks.Book.ReduceRestingQty | crates/core/src/book.rs:278-299 | The concrete step refines a quantity change |
| OrderBooks.Book.AmendInPlace | crates/core/src/book.rs:791-821 | The in-place amend refines a quantity change |
| OrderBooks.Book.HitHead | crates/core/src/book.rs:338-414 | One turn of the inner loop refines one turn of plain matching, which deals at the maker's price by Trades.ProcessMakersPrice |
| OrderBooks.Book.Sweep | crates/core/src/book.rs:315-422 | The nested loops terminate and refine plain matching: same book, remainder and events, whose closed form is Sweeping.SweepClosedForm |
| OrderBooks.Book.StpClear | crates/core/src/book.rs:502-549 | The nested loops terminate and refine the plain walk |
| OrderBooks.Book.LevelForeignQty | crates/core/src/book.rs:468-485 | What is left of the need is the need less the level's foreign quantity; a positive need is reported met exactly when nothing is left |
| OrderBooks.Book.IsFillable | crates/core/src/book.rs:438-463 | True if and only if the foreign crossing depth covers the quantity |
| OrderBooks.Book.WalkLevel | crates/core/src/book.rs:1015-1065 | Links, price, side, quantity, tail, count and total pass every check of the walk; the check for a zero price fails exactly at price zero; otherwise the chain from head to tail is the level's queue, in order |
| OrderBooks.Book.SubmitGtc | crates/core/src/book.rs:553-588 | Refines the plain good-till-cancelled order |
| OrderBooks.Book.SubmitIoc | crates/core/src/book.rs:592-622 | Refines the plain immediate-or-cancel order |
| OrderBooks.Book.SubmitFok | crates/core/src/book.rs:628-671 | Refines the plain fill-or-kill order |
| OrderBooks.Book.SubmitMarket | crates/core/src/book.rs:677-706 | Refines the plain market order |
| OrderBooks.Book.SubmitPostOnly | crates/core/src/book.rs:710-746 | Refines the plain post-only order |
| OrderBooks.Book.Modify | crates/core/src/book.rs:757-847 | Refines the plain amend |
| OrderBooks.Book.Cancel | crates/core/src/book.rs:857-879 | Refines the plain cancel, unknown ids included; what it does is Rules.CancelRule |
| OrderBooks.Book.MassCancelAccount | crates/core/src/book.rs:908-928 | The loop over the copied slot array refines cancelling the account's ids in pre-call order |
| OrderBooks.Book.ListLevel | crates/core/src/book.rs:966-987 | One level's row and the accounts it adds to the listing, intact exactly at a positive price |
| OrderBooks.Book.SnapshotSide | crates/core/src/book.rs:965-989 | The loop over a side's levels emits its rows in ascending price and extends the listing, intact exactly when every price is positive; otherwise the only row is that of price zero |
| OrderBooks.Book.SnapshotBook | crates/core/src/book.rs:961-1008 | Intact exactly when every resting price is positive, and then the plain book's snapshot; otherwise the rows up to and including the first level at price zero |
| Engines.Engine.Dispatch | crates/core/src/engine.rs:56-105 | Refines plain dispatch, whose arms are stated command by command in Rules and SnapshotRules; intact exactly unless the command stalls, and then with the rows emitted so far |
| Engines.Engine.Apply | crates/core/src/engine.rs:44-54 | Refines plain apply: the touch is announced exactly when it moved |
| Risk.RiskState.KillSwitchReject | crates/risk/src/lib.rs:117-149 | The concrete check equals the policy on the plain book |
| Risk.RiskState.NewOrderReject | crates/risk/src/lib.rs:153-219 | The concrete checks, in their order, equal the policy on the plain book, which is written out in Admission.AdmissionIff |
| Risk.RiskState.PreApply | crates/risk/src/lib.rs:79-106 | The gate equals the policy, and only a kill-switch command changes the switch |
| Risk.ProcessCommand | crates/risk/src/lib.rs:38-52 | Gate, engine and sequence together refine one plain step; intact exactly unless the command stalls, and then with the rows emitted so far |
| MatchingThreads.MatchingThread.RouteEvent | crates/gateway/src/matching.rs:238-303 | One callback updates the table and the two channels as the routing function says |
| MatchingThreads.MatchingThread.RouteEvents | crates/gateway/src/matching.rs:234-304 | The callbacks of one command are the routing fold over its events |
| MatchingThreads.MatchingThread.Handle | crates/gateway/src/matching.rs:214-304 | One turn of the thread: recorded, processed, routed; a stalling snapshot is recorded and leaves exactly the rows emitted before the check failed |
| MatchingThreads.MatchingThread.Run | crates/gateway/src/matching.rs:196-307 | The thread's whole life, of any length, refines the run of its requests up to the first that stalls: final state, both channels with the last rows, and the recording; it serves all exactly when none stalls |
| Feed.DropOldestQueue.PushEvent | crates/marketdata/src/queue.rs:46-54 | One atomic push of the protocol |
| Feed.DropOldestQueue.PopEvent | crates/marketdata/src/queue.rs:58-67 | One atomic pop of the protocol once an item is there |
| Feed.FanOut | crates/marketdata/src/subscriber.rs:89-96 | Every subscriber's queue receives the event, whatever the iteration order |
| Feed.SubscriberWriter.WriteNext | crates/marketdata/src/subscriber.rs:104-125 | One turn of a writer is one write step of the protocol |
| Feed.RunSchedule | crates/marketdata/src/subscriber.rs:104-125 | Any schedule run on the queue and the writer delivers and holds what the protocol says |
| Codec.ReadWritten | crates/wire/src/codec.rs:16-37 | An integer that fits its width is read back as written |
| Codec.WriteRead | crates/wire/src/codec.rs:16-37 | Bytes read as an integer and written again are the same bytes |
| Codec.SideOfByte | crates/wire/src/codec.rs:51-64 | Inverse of the side byte, defined on exactly its range |
| Codec.KindOfByte | crates/wire/src/codec.rs:66-79 | Inverse of the order-kind byte, defined on exactly its range |
| Codec.TifOfByte | crates/wire/src/codec.rs:81-98 | Inverse of the time-in-force byte, defined on exactly its range |
| Codec.StateOfByte | crates/wire/src/codec.rs:100-113 | Inverse of the fill-state byte, defined on exactly its range |
| Codec.ReasonOfByte | crates/wire/src/codec.rs:118-138 | Inverse of the reject-reason byte, defined on exactly its range |
| Codec.BoolOfByte | crates/wire/src/codec.rs:39-49 | Inverse of the flag byte, defined on exactly its range |
| Codec.MessageLen | crates/wire/src/tag.rs:84-104 | Every known tag has a positive length within the largest message |
| Inbound.EncodeCommand | crates/wire/src/inbound.rs:23-83 | The buffer's prefix becomes the command's bytes, the rest is untouched |
| Outbound.EncodeEvent | crates/wire/src/outbound.rs:48-237 | The buffer's prefix becomes the stamped event's bytes, the rest is untouched |
| Framing.Framer.Feed | crates/wire/src/framer.rs:27-29 | Bytes are appended to the buffer |
| Framing.Framer.DrainFrames | crates/wire/src/framer.rs:40-59 | The loop hands over exactly the frames of one-shot framing and keeps its tail |
| Readers.DecodeFrames | crates/gateway/src/order_entry.rs:115-127 | Frames are decoded in order, up to the first that panics |
| Readers.RunReader | crates/gateway/src/order_entry.rs:98-139 | The read loop passes on what reading the whole stream at once would, for any chunking |
| Replays.Gather | crates/bin/src/replay.rs:64-72 | All decoded commands and the first decoding error |
| Replays.Collect | crates/bin/src/replay.rs:100-108 | One command's events extend the two numbered streams |
| Replays.ReplayCommands | crates/bin/src/replay.rs:82-115 | The replay loop yields the numbered live stream and the last trade, or crashes exactly when a command stalls |
| Replays.ReplayFile | crates/bin/src/replay.rs:51-116 | The whole function on recordings of any length, error cases included |

## Left out

- Sockets, accept loops, thread start-up, CPU pinning and the spin loop: plumbing without functional content.
- Bounded `mpsc` channels: channels are sequences, so the `try_send` loss before fan-out is not modelled and the StreamSeq results are per subscriber queue.
- `Mutex` and `Condvar` internals: a push and a pop are atomic steps; a pop that would block takes no step.
- The per-connection StreamSeq counter of the return dispatcher and write failures that drop a connection: they would only add easy members.
- Delivery of the reader's refusals to the return channel with the reserved engine sequence: the reader's output says what it forwards and what it refuses, not the channel.
- `risk.toml` parsing: the configuration is a parameter, with a band of at most 100 percent as the lower edge needs.
- `BTreeMap` and `HashMap` internals and capacity growth: price maps are finite maps with least and greatest key.
- Integer widths in the book: prices are at most 2^64 - 1; the mid wraps at 64 bits and the gate's notional sum at 128, as in the release build the Dockerfile makes; stored level totals, stored notionals and sequence numbers are exact integers. So what is proved of stored totals, touches and snapshot rows speaks of the code while they fit: `TotalsFitIff` and `NotionalWithinIff` say exactly when one stops fitting, `RunFits` names runs in which none does. What wrapped stored values then show in touches and snapshots, and the panic of a build with overflow checks, is not modelled.
- Arena exhaustion: an order that may rest is processed while fewer than 2^32 - 1 orders rest, which is when a slot is to be had (`RoomIff`). `Run` and `ReplayFile` assume it of the book before each such order, not of the run's length; `RunRoomy` proves it for a bounded number of accounts. What the code does with slot number 2^32 - 1 is not modelled.
- `client_ts` and `--exclude-timestamps`: carried by the codec, no effect on behaviour.
- Recorder write failures: the recording is the bytes handed to the writer.
- File reading and error message texts in replay: the bytes are a parameter and each error is a constructor.
- Benchmarks, workload generation and allocation tests: performance only.
