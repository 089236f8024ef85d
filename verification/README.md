# Verification of the exchange

This project models the exchange's matching core, its write-ahead log and its sharded engine, and proves what the
design promises of them: the order book keeps price-time priority, never crosses and conserves quantity; the linked
book in memory computes exactly what a simple book of sorted sequences computes; a log cut at any byte gives back a
prefix of the run; and no interleaving of clients and shards changes the outcome for a symbol.

`dafny verify dfyconfig.toml` checks everything (Dafny 4.11).

## How it is built

**The reference book.** `Spec` defines a book as two sequences of resting orders in price-time order, two sequences of
pending stops in trigger order and the last traded price, with every command as a function on them. Both sides are
handled once through the rank of an order, the key of the source's ordered maps: the price on the sell side, the
reversed price on the buy side. On this book are proved the invariants of every run (`Invariants`), who trades how much
at what price (`Priority`), the life cycle and the ledger of every id (`Ledger`, `Conservation`), and the laws between
commands (`Commands`). Four modules say what the commands mean without the functions that define them: which commands
are refused, and at what cost (`Refusals`); how a released stop trades (`Releases`); where stops wait and in which order
a cascade takes them (`StopQueue`); and that orders, trades and releases are what each id was submitted for (`Intent`).
These hold of every run of the reference book; they hold of the code as far as it follows that
book, which is what the next part settles.

**The linked book.** `BookState.OrderBook` has the fields of the source: an arena that hands out the slot freed last,
orders threaded by `next` and `prev`, a map of levels with cached totals per side, the index by id and the two stop
maps. Ghost queues list the slots of each side in price-time order; `View` reads the reference book off them. `Levels`
holds the list surgery, `StopMap` the ordered maps. `Matcher` and `Cascade` follow the source function by function,
loops and stop recursion included, and each method is proved to take the view where `Spec` takes it, up to
`Cascade.ApplyCommand` and whole runs. The stop cascade terminates because every release consumes a pending stop.
`Twins` states a law between commands on two linked books.

**The log.** `Record` is the frame of a record, with the checksum as any function from bytes to 32-bit numbers.
`Reader` is the replay loop over segments, `Layout` the spread of a session's records over segment files and what many
torn sessions still give back, `Writer` the writer over a buffered file. `Rebuild` and `Snapshot` cover saving a book in
hash-map order and loading it back.

**The engine.** `Engine` is a step system: clients reserve a number and later push, shards pop, log and apply, in any
order. `Runtime` is the moving code (counter, queues, submission, shard loop over linked books and log), and `Recovery`
joins log and matcher: run, cut, replay, all on linked books. `Restart` is the way back up: snapshots with the log
beyond them, and what the log of earlier sessions does to an engine that starts empty.

## What is false of the code, and exactly when it holds

- An immediate-or-cancel order is matched like a market order; its limit protects nothing
  (`Priority.IocIsMarket`, `Priority.IocBreaksItsLimit`). Trades respect the limit exactly when the quantity within it
  covers the order or nothing lies beyond it (`Priority.WithinLimitExactly`). The check before a fill-or-kill order
  makes that condition true (`Priority.FokAtomic`).
- Cancelling a pending stop frees its slot while the stop map keeps naming it. `Matcher.ApplyCancel` leaves the book
  in this dangling state exactly when the id is a pending stop.
- Replacing a pending stop frees its slot and hands it straight back to the renewed stop, whose trigger price is now 0,
  while the stop map keeps the old entry: it names the renewed stop under two keys or twice, or, if a bad price refuses
  the renewal, a free slot. The book is valid afterwards exactly when the new quantity was 0 or the id was no pending
  stop (`Cascade.ApplyReplace`, with the resulting arena, index and stop maps).
- A released stop-limit order that comes to rest reuses its own slot, which is still listed, and is released again.
  `StopLimit.ReturnsExactly` gives, for a single pending stop-limit order of either side, the exact condition on the
  book before the call under which the cascade returns: the quantity within its limit covers it, or there is some and
  the worst price of it has not reached the trigger. `StopLimit.LoopsAlone` is a book from which it does not.
- A rejected command leaves the book alone, except a replace of a known order with a positive quantity and a limit price
  that is not positive: the old order is gone before the new one is refused (`Refusals.RejectedUntouched`).
- The quantity check counts pending stops on one side only, so it answers yes exactly when there is none, up to
  multiples of 2^64 (`Queries.CheckQtyConservation`).
- Adding a limit order and cancelling it restores the book exactly when no pending stop was already on the triggered
  side of the last trade (`Commands.NewThenCancel`).
- Encoding and decoding a record gives it back exactly when its body is shorter than 2^32 bytes (`Record.RoundTrip`).
- A damaged record is reported (`Layout.DamageReported`), except one whose body is too short for the fixed fields under a
  checksum that fits: it passes for a torn end (`Record.FrameVerdict`).
- Loading puts a saved pending stop into a price level and into no stop map: a book saved and loaded is valid exactly
  when no stop was pending (`Snapshot.Reload`).
- A snapshot lists a hash map, so queues may come back in another order. The loaded book behaves like the saved one
  exactly when the list keeps the orders of each price in time order (`Rebuild.RebuiltBehaves`); quantities, best
  prices and depth come back in any case (`Snapshot.Reload`).
- The architecture document promises that a snapshot and the log beyond it continue the run. `Restart.RecoverShard`
  proves it on linked books under two conditions: the snapshots keep time order, and their number separates the
  log. The second is exact (`Restart.TailExactly`), and so is the first for each book (`Rebuild.RebuiltExactly`).
- The engine starts every session with empty books while the log keeps the earlier sessions. A replay of the whole log
  redoes what the running session has applied exactly when no earlier record survives and none of its own is lost
  (`Restart.RestartExactly`, `Restart.RestartDiffers`).
- Sequence numbers are taken before the push, so queues need not be in sequence order (`Engine.OverlapReorders`). From a
  shard in order, every schedule of the pending pushes keeps it so exactly when at most one command for that shard is
  in flight and it is younger than all the shard has accepted (`Engine.SafeExactly`); a whole run is safe in this sense
  exactly when no client takes a number for the shard while another command for it is in flight
  (`Engine.SerialOrder`). Time priority is queue order.
- The log equals what was applied exactly when no append failed (`Engine.LogBeforeApply`); the shard ignores failures.

A command is in scope (`Scope.InScope`) if it releases no stop-limit order, keeps the level totals within 64 bits and
does not cancel or replace a pending stop. Stop-limit orders may be submitted and may wait. Without the last condition
`Cascade.ApplyCommand` is still exact: the events are those of the reference, and the book is valid exactly when no
pending stop was touched. `Commands.VolumeKeepsScope` gives a plain condition for a whole run.

## Model

| member | source | states |
|---|---|---|
| Cascade.ApplyCommand | crates/core/src/matcher.rs:10-18 | on a valid linked book, a command that releases no stop-limit order and fits in 64 bits emits the events of the reference book; the book is valid afterwards if and only if the command touched no pending stop, and then its view is that of the reference |
| Cascade.ApplyAll | crates/core/src/matcher.rs:10-18 | whole runs in scope, pending stop-limit orders included, from any valid book: valid at the end, with the book and all events of the reference run |
| Cascade.ApplyFresh | crates/core/src/matcher.rs:10-18 | from the empty book every run in scope ends valid, equal to the reference run, well formed and uncrossed |
| Cascade.ApplyNew | crates/core/src/matcher.rs:20-118 | checks, placing and stop cascade of a new order that releases no stop-limit order compute the reference outcome; no stop map entry goes stale |
| Cascade.TriggerStops | crates/core/src/matcher.rs:307-349 | collecting first and pruning after the loop fires exactly the reference stops in order, although nested cascades reuse slots |
| Cascade.FireStops | crates/core/src/matcher.rs:309-327 | the loop over collected slots skips freed ones and releases each live stop once, as the reference does by id |
| Cascade.ReleaseStop | crates/core/src/matcher.rs:314-318 | a triggered stop leaves index, arena and its queue; everything else stays |
| Cascade.AddStop | crates/core/src/matcher.rs:44-62 | a new stop is filed behind all stops that trigger no later |
| Cascade.ApplyReplace | crates/core/src/matcher.rs:269-305 | replace emits the events of the reference, error cases included; the book is valid afterwards if and only if the new quantity is 0 or the id is no pending stop, and then it is the reference book; otherwise arena, index and stop maps are as stated |
| Matcher.MatchOrder | crates/core/src/matcher.rs:121-206 | the matching loop terminates and yields the reference match: remainder, makers left, last price and events |
| Matcher.TradeOnce | crates/core/src/matcher.rs:156-202 | one trade takes the head of the best level, fills it or puts it back at the head with what is left |
| Matcher.AvailableQty | crates/core/src/matcher.rs:236-253 | the saturating sum over levels is the quantity of the orders within the limit, capped at the largest 64-bit number |
| Matcher.PlaceOrder | crates/core/src/matcher.rs:62-112 | acceptance, fill-or-kill check, match and the fate of the remainder are the reference placing |
| Matcher.ApplyCancel | crates/core/src/matcher.rs:255-267 | cancel is the reference cancel for resting and unknown ids; the book is left dangling exactly when the id is a pending stop, and then the levels of both sides, index and arena are as stated |
| Matcher.Find | crates/core/src/book.rs:36-40 | an id is indexed exactly when the book has it, and the index leads to its order, queue and location |
| Matcher.SoundWF | crates/core/src/book.rs:30-46 | the view of a sound linked book is well formed: sides sorted, ids unique over resting orders and stops |
| BookState.OrderBook.constructor | crates/core/src/book.rs:49-62 | a new book is valid and empty |
| BookState.OrderBook.PopHead | crates/core/src/book.rs:115-143 | takes the first order of a level off queue, links and total; all other levels stand |
| BookState.OrderBook.RemoveEmpty | crates/core/src/book.rs:145-155 | a level is dropped exactly when it is empty |
| BookState.OrderBook.ReinsertAtHead | crates/core/src/matcher.rs:209-233 | an order put back heads its side again, so pop and reinsert keep its priority |
| BookState.OrderBook.InsertResting | crates/core/src/book.rs:83-112 | an order goes behind every order of its price or better, linked to the old tail |
| BookState.OrderBook.RemoveSlot | crates/core/src/book.rs:158-183 | an order is unlinked from any position, its level loses its quantity or disappears, all others keep their order |
| Levels.Unlink | crates/core/src/book.rs:158-183 | stitching the neighbours keeps the links, ends and totals of the whole side, for a removal at any position |
| Levels.LinkTail | crates/core/src/book.rs:83-112 | wiring a node behind the tail keeps the links, ends and totals of the whole side |
| Levels.LinkHead | crates/core/src/matcher.rs:209-233 | wiring a node before the head keeps the links, ends and totals of the whole side |
| Levels.BestKey | crates/core/src/matcher.rs:140-152 | the first level holds the first order of the side |
| Levels.CutCounted | crates/core/src/price_level.rs:36-46 | a pop that leaves the count alone and a removal that lowers it by one keep every level's count at least its number of orders |
| Levels.PutCounted | crates/core/src/price_level.rs:23-33 | so does an insertion that raises the count by one |
| Invariants.RunKeeps | crates/core/src/matcher.rs:10-18 | every run of the reference book keeps it well formed and uncrossed |
| Invariants.SubmitKeeps | crates/core/src/matcher.rs:20-118 | so does every new order with its cascade on the reference book; after an order that reaches the stop check no pending stop is on the triggered side of the last trade |
| Invariants.MatchKeeps | crates/core/src/matcher.rs:133-206 | a match ends with a remainder only if the side is empty or its best no longer crosses |
| Invariants.ApplyKeeps | crates/core/src/matcher.rs:10-18 | one command on the reference book keeps the invariant |
| Refusals.NewRefused | crates/core/src/matcher.rs:29-71 | a new order is refused for quantity 0, a known id, a limit price that is not positive, in this order and with the book untouched, or after acceptance if fill-or-kill finds too little within its limit; every other one is accepted and its whole tape, cascade included, holds no rejection |
| Refusals.CancelRefused | crates/core/src/matcher.rs:255-267 | a cancel is refused if and only if no order or stop carries the id; otherwise exactly that order or stop leaves and all others keep their place |
| Refusals.ReplaceRefused | crates/core/src/matcher.rs:278-304 | a replace is refused for quantity 0 and then for an unknown id, with the book untouched; with a bad limit price it is refused after the old order has left; otherwise it is answered by replaced, then accepted |
| Refusals.RejectedUntouched | crates/core/src/matcher.rs:269-305 | after a command answered with a rejection the book is as before, if and only if it is not a replace of a known order with positive quantity |
| Intent.RunHonours | crates/core/src/matcher.rs:20-206 | at every point of every run: orders and stops in the book are as last submitted or replaced under their id (side, kind, price, trigger, quantity); every trade is between a buyer and a seller by submission, at the price the maker asked for, within the limit a limit or stop-limit taker asked for; and every stop released by the next command had its submitted stop price reached by a price traded before |
| Intent.ApplyHonours | crates/core/src/matcher.rs:10-18 | the same for one command from any such book |
| Intent.NoneOverdue | crates/core/src/matcher.rs:114-117 | after an order that reaches the stop check no stop waits whose submitted stop price the last trade has reached |
| StopQueue.StopFiled | crates/core/src/matcher.rs:43-60 | a new stop waits exactly as submitted, trigger included, behind every stop that triggers no later and before every other; nothing else moves |
| StopQueue.TriggeredExactly | crates/core/src/matcher.rs:309-312 | a price sets off exactly the stops whose stop price it has reached, a front part of the queue |
| StopQueue.BuysFirst | crates/core/src/matcher.rs:307-349 | at a check the first reached buy stop goes first, without one the first reached sell stop, without either nothing happens |
| StopQueue.CascadeInTurn | crates/core/src/matcher.rs:307-349 | however deep a cascade nests, stops leave each queue from the front, one by one, in the order in which the tape accepts them |
| StopQueue.ReachedGoes | crates/core/src/matcher.rs:307-349 | a stop whose stop price the last trade has reached at a check is not pending after it |
| Releases.ReleaseTrades | crates/core/src/matcher.rs:314-326 | a released stop trades on its own side: its trades are its shares of the waterfall over the other side, for its quantity as far as the limit of a stop-limit reaches; what a stop without a limit cannot fill is cancelled, a stop-limit is not |
| Releases.SubmitEvents | crates/core/src/matcher.rs:20-118 | every event of an order and its cascade carries the number of the command, and trades are taken, orders accepted and cancelled only in the name of the order itself or of a stop that was pending |
| Releases.PlaceSplit | crates/core/src/matcher.rs:75-112 | the tape of a placed order is its acceptance, its match and the ending that its kind and remainder call for |
| Priority.PriceTimePriority | crates/core/src/matcher.rs:133-203 | a match is the waterfall over the opposite side: the makers traded are a prefix, all but the last filled, at the maker's price; an unfilled last maker keeps the head |
| Priority.NoQueueJumping | crates/core/src/matcher.rs:156-202 | an order trades only if every order ahead of it is filled |
| Priority.MatchConserves | crates/core/src/matcher.rs:162-178 | what is traded is what the taker and the makers' side both lose |
| Priority.MatchNotes | crates/core/src/matcher.rs:170-198 | each trade is followed at once by a note on its maker: filled, or partially filled with what it traded and what it keeps |
| Priority.FokAtomic | crates/core/src/matcher.rs:65-71 | a fill-or-kill order trades its whole quantity within its limit, or is rejected with book and tape untouched, decided by the quantity within the limit |
| Priority.WithinLimitExactly | crates/core/src/matcher.rs:140-149 | for market, immediate-or-cancel and fill-or-kill orders, trades respect a limit if and only if the quantity within it covers the order or nothing lies beyond |
| Priority.IocIsMarket | crates/core/src/matcher.rs:140-149 | an immediate-or-cancel order is matched exactly like a market order |
| Priority.IocBreaksItsLimit | crates/core/src/matcher.rs:140-142 | a concrete buy limited to 100 that trades at 105 |
| Priority.ImmediateTakesAll | crates/core/src/matcher.rs:133-154 | an order of these kinds is left over only if it emptied the side |
| Priority.LimitOutcome | crates/core/src/matcher.rs:133-154 | a limit order is filled if and only if the quantity within its limit covers it, and otherwise its last trade is at the worst price within the limit |
| Ledger.RunTape | crates/core/src/matcher.rs:10-118 | over every run of the reference book and for every id, the event tape is legal for the life-cycle automaton, leads to the order the book holds, and accepted equals traded plus dropped plus open |
| Ledger.ApplyTape | crates/core/src/matcher.rs:10-18 | the same for one command |
| Ledger.SubmitTape | crates/core/src/matcher.rs:20-118 | the same for a new order and the stops it sets off |
| Ledger.MatchTape | crates/core/src/matcher.rs:162-198 | a match drives the account of every id, taker, maker or bystander, to what the match leaves of it |
| Ledger.TapeConserves | crates/core/src/matcher.rs:162-178 | on a legal tape everything accepted was traded, dropped or is open |
| Conservation.RunConserves | crates/core/src/matcher.rs:162-178 | over every run of the reference book from the empty one, total accepted quantity is twice the traded volume plus the open quantity of the book plus what was dropped |
| Conservation.RunNamed | crates/core/src/matcher.rs:170-178 | the ledger of an id has booked exactly the trades that name it, and no trade has one id on both sides |
| Commands.CancelExact | crates/core/src/matcher.rs:255-267 | a corollary of the definitions: cancelling a resting order takes out its one element, from any position |
| Commands.NewThenCancel | crates/core/src/matcher.rs:83-117 | a limit order that does not trade, then its cancel, restores the book if and only if no pending stop was triggered already |
| Commands.ReplaceIsCancelNew | crates/core/src/matcher.rs:278-304 | a corollary of the definitions: replace reaches the book, and emits the trades, of cancel followed by a new order with the same id |
| Twins.ReplaceTwoWays | crates/core/src/matcher.rs:269-305 | of two linked books with the same view, one replaces an order, the other cancels it and submits it anew: same view at the end, same trades |
| Commands.RestsLast | crates/core/src/matcher.rs:302-304 | what is left of a limit order rests behind every order of its price and moves nothing else |
| Commands.VolumeKeepsScope | crates/core/src/price_level.rs:23-25 | a run without stop-limit orders that cancels and replaces no pending stop is in scope if the open quantity and all quantity ever submitted fit in 64 bits |
| Commands.RunOpen | crates/core/src/matcher.rs:10-18 | a run leaves at most the open quantity it started with plus what was submitted |
| Queries.BestOfSide | crates/core/src/book.rs:64-70 | the best price of a side with the summed quantity of its orders |
| Queries.DepthOfSide | crates/core/src/book.rs:72-80 | the first n levels are the first n prices of the orders with their sums, for every n |
| Queries.EntriesAreDepth | crates/core/src/book.rs:72-80 | reading levels in key order is grouping the orders by price |
| Queries.DepthExactly | crates/core/src/book.rs:64-80 | the depth has prices from better to worse, each with the summed quantity of all orders at it, and misses a price only for n better ones; the best price is the first of it |
| Queries.CheckNoCross | crates/core/src/book.rs:186-191 | the check answers yes exactly when the book is not crossed |
| Queries.CheckQtyConservation | crates/core/src/book.rs:194-201 | the check answers yes exactly when the open quantity of the pending stops is a multiple of 2^64, which is zero within 64 bits |
| Queries.RunAndCheck | crates/core/src/matcher.rs:584-618 | after any such stream the book is uncrossed, and the quantities agree exactly when no stop is pending |
| StopLimit.ReturnsExactly | crates/core/src/matcher.rs:307-349 | for one pending stop-limit order of either side the cascade returns if and only if the quantity within its limit covers it, or there is some and the worst of it has not reached the trigger; it then leaves the reference match, the stop gone, and the order at rest if it was not covered |
| StopLimit.LoopsAlone | crates/core/src/matcher.rs:307-349 | a concrete book, one triggered buy stop-limit order and nothing to trade with, from which the cascade does not return |
| StopLimit.SettledExactly | crates/core/src/matcher.rs:62-112 | the memory after a released order is matched: the makers used up have left arena and index, the order is there exactly if it rests, all else stands |
| StopLimit.HauntedForever | crates/core/src/matcher.rs:307-349 | once the first live slot listed as triggered holds a limit order that meets no maker, no recursion depth is enough, whatever else the book holds |
| StopLimit.HauntedAgain | crates/core/src/matcher.rs:314-326 | releasing such an order puts it back into the same slot under the same entry |
| Record.Encode | crates/wal/src/record.rs:48-65 | the bytes built step by step are the frame: length, checksum, number, time, tag, payload |
| Record.DecodeExactly | crates/wal/src/record.rs:68-96 | decoding yields a record if and only if its framed encoding stands at the front of the buffer |
| Record.RoundTrip | crates/wal/src/record.rs:48-96 | encode then decode gives the record back if and only if its length field does not wrap |
| Record.Digit | crates/wal/src/record.rs:51-62 | byte i of a written number is its digit i to the base 256, lowest first |
| Record.TornIsTruncated | crates/wal/src/record.rs:68-78 | every proper prefix of a framed record reads as truncated |
| Record.DecodeSound | crates/wal/src/record.rs:68-96 | a buffer that reads as a record starts with the encoding of that record |
| Record.FrameVerdict | crates/wal/src/record.rs:68-96 | what any whole frame reads as, whatever follows: a wrong checksum is reported with both checksums, a short body passes for torn, an unknown type is reported, anything else is a record |
| Record.FrameShape | crates/wal/src/record.rs:68-78 | every buffer that is not torn starts with such a frame |
| Record.ShortVerdict | crates/wal/src/record.rs:68-78 | every other buffer reads as truncated |
| Record.FrameExample | crates/wal/src/record.rs:25-33 | the bytes of a concrete record, and the codes of the record types |
| Reader.Replay | crates/wal/src/reader.rs:20-52 | the nested loops hand the records of all segments beyond afterSeq to the callback in order, stop at its first failure or at corruption, and pass over torn ends |
| Reader.TornTail | crates/wal/src/reader.rs:31-46 | a log cut at any byte gives exactly the records wholly contained, and no error |
| Layout.CutDelivers | crates/wal/src/reader.rs:20-52 | a log cut at any byte delivers exactly the wholly contained records beyond afterSeq, in order, and returns the last number |
| Reader.WholePrefix | crates/wal/src/reader.rs:31-46 | the records wholly contained are the longest prefix whose encoding fits |
| Reader.ParseSound | crates/wal/src/reader.rs:31-46 | whatever the bytes, the records read stand encoded at the front of the data, and reading stops where no record follows: with an error if and only if what follows is not just torn |
| Reader.ConsumeFolds | crates/wal/src/reader.rs:34-39 | a callback that never fails is folded over the records beyond afterSeq in log order |
| Reader.ConsumeExactly | crates/wal/src/reader.rs:20-52 | a replay succeeds if and only if the log reads without error and the callback fails at no record beyond afterSeq |
| Reader.ConsumeFails | crates/wal/src/reader.rs:34-39 | a callback that first fails at record k ends the replay with its error, in the state it leaves |
| Reader.ConsumeEnds | crates/wal/src/reader.rs:34-49 | otherwise it sees all records beyond afterSeq in order, and the result is the reader's error, or the last number |
| Layout.DamageReported | crates/wal/src/reader.rs:31-46 | whole records and then a frame with a wrong checksum or an unknown type, after any torn sessions and before anything: the records are handed out and exactly that error is returned |
| Layout.HistoryReplay | crates/wal/src/reader.rs:25-52 | over any number of sessions, each torn in its last segment, replay is the surviving prefix of each, one after the other, without error |
| Layout.SessionReplay | crates/wal/src/reader.rs:27-46 | the files of one session, the last cut anywhere, read back as its surviving records |
| Layout.SurvivorsPrefix | crates/wal/src/writer.rs:54-78 | a session loses a suffix of its records at most, and none if its last segment is whole |
| Layout.SegmentsFlat | crates/wal/src/writer.rs:54-78 | rolling splits, loses and moves no record |
| Layout.SegmentSizes | crates/wal/src/writer.rs:73-75 | a rolled segment reached 64 MiB with its last record and not before; the open one has not |
| Writer.WalWriter.constructor | crates/wal/src/writer.rs:30-51 | whatever files the directory holds, a session starts an empty segment above the highest index and touches no other file |
| Writer.WalWriter.Append | crates/wal/src/writer.rs:54-79 | appends one record, keeps the directory invariant and the flush promise, and only ever extends the open file |
| Writer.WalWriter.Finish | crates/wal/src/writer.rs:81-84 | after a flush nothing appended can be lost with the process |
| Writer.WalWriter.RollSegment | crates/wal/src/writer.rs:92-100 | the full segment is flushed and closed, the next one is empty |
| Writer.WalWriter.Crash | crates/wal/src/writer.rs:30-51 | a cut of the open segment at any byte leaves the files found on opening followed by those of one torn session |
| Writer.SurvivorsGrow | crates/wal/src/writer.rs:54-78 | appending never loses a record that had survived before |
| Writer.NextIndex | crates/wal/src/writer.rs:34-37 | the new index is one above the highest existing one, or 1 |
| Rebuild.RebuiltSame | crates/wal/src/snapshot.rs:96-124 | whatever the insertion order, the rebuilt book is well formed with the same orders, level totals, best prices and depth |
| Rebuild.RebuiltExactly | crates/wal/src/snapshot.rs:37-68 | the rebuilt book is the saved one if and only if each price level is listed in time order |
| Rebuild.RebuiltBehaves | crates/wal/src/snapshot.rs:37-68 | for a book without pending stops, it answers every later command stream alike if and only if each price level is listed in time order |
| Rebuild.QueueShows | crates/core/src/matcher.rs:156-178 | two books with the same orders in different queues, however large their totals, answer some stream of market orders with different trades |
| Snapshot.SaveSnapshot | crates/wal/src/snapshot.rs:34-79 | the saved list has every order of the book once, in any order, under the symbol of the book |
| Snapshot.SnapExample | crates/wal/src/snapshot.rs:37-68 | concrete orders as they are stored, with the codes of side, kind and time in force, and one restored from unknown codes |
| Snapshot.LoadSnapshot | crates/wal/src/snapshot.rs:85-127 | loading indexes every order of the list at its limit price and fills no stop map; the book is valid if and only if the list holds no stop, and then its view is the list inserted in order |
| Snapshot.Reload | crates/wal/src/snapshot.rs:34-127 | a book saved and loaded is valid if and only if no stop was pending; it then keeps orders, totals and depth, and is the same book exactly when the list keeps time order |
| Engine.EveryRun | crates/engine/src/shard.rs:55-78 | in every interleaving applied commands, the one in hand and the queue are the accepted pushes in order; numbers are unique; books and events are the fold over the applied commands |
| Engine.BookOfSymbol | crates/engine/src/shard.rs:70-78 | symbol s lives in shard s modulo the number of shards and nowhere else, and its book is the fold over the applied commands that carry s; once drained, over the accepted ones |
| Engine.CancelArrives | crates/engine/src/shard.rs:70-78 | once drained, an order cancelled under symbol s is gone from the book of s, unless a later command for s submitted its id again |
| Engine.ShardRunNext | crates/engine/src/shard.rs:70-84 | a shard answers each command from the book of the symbol it carries, as the commands before for that symbol have left it, behind all earlier answers; without such a book nothing happens |
| Engine.ScheduleIndependence | crates/engine/src/lib.rs:82-93 | two engines, of any shard counts and schedules, that accepted the same commands for a symbol agree on its book |
| Engine.LogBeforeApply | crates/engine/src/shard.rs:64-78 | between commands the log is what was applied if and only if no append failed, and then the books are the fold over the log |
| Engine.Drains | crates/engine/src/lib.rs:112-115 | once no client pushes any more, as many turns as the queue is long apply all that was accepted |
| Engine.ShardRunSplits | crates/engine/src/shard.rs:75-78 | symbols of one shard do not interact |
| Engine.SerialOrder | crates/engine/src/lib.rs:82-93 | per shard: in every state of a run all schedules of the pending pushes keep the shard in sequence order if and only if no number is taken for the shard while another command for it is in flight; it then accepts and applies in ascending order |
| Engine.SafeExactly | crates/engine/src/lib.rs:89-90 | from a shard in order, every schedule of the pending pushes keeps it so if and only if at most one command for it is in flight, younger than all it has accepted |
| Engine.OverlapReorders | crates/engine/src/lib.rs:89-90 | two overlapping submissions can be queued against their sequence order |
| Engine.SubmitSteps | crates/engine/src/lib.rs:82-93 | an uninterrupted submission of a command that carries s stands last in the queue of shard s modulo the number of shards, or that queue is full and refuses it; its number is used up either way |
| Engine.TurnSteps | crates/engine/src/shard.rs:55-78 | one turn of the loop moves the first queued command through the log into its book |
| Runtime.RunShard | crates/engine/src/shard.rs:45-133 | the loop over linked books computes the fold over the queued commands; there is a book for each configured symbol, the run of the commands that carry it; the log holds a record for each command, all of them flushed at the end |
| Runtime.LogAndApply | crates/engine/src/shard.rs:64-78 | a command is appended to the log and applied to its symbol's book only |
| Runtime.Submitter.Submit | crates/engine/src/lib.rs:82-93 | a command that carries s goes to the queue of shard s modulo the number of shards; a full queue hands it back; no other queue changes |
| Runtime.Submitter.constructor | crates/engine/src/lib.rs:41-79 | one empty bounded queue per shard |
| Runtime.Partition | crates/engine/src/lib.rs:50-55 | every shard gets the symbols that map to it, in order |
| Runtime.OwnedExactly | crates/engine/src/lib.rs:50-55 | a shard's list holds the configured symbols that map to it, each as often as configured and in that order |
| Runtime.Sequencer.Next | crates/engine/src/sequencer.rs:24-28 | numbers are handed out one by one, wrapping at 2^64 |
| Runtime.Ring.TryPush | crates/engine/src/ring.rs:45-49 | a push is taken at the back if and only if there is room |
| Runtime.Ring.Pop | crates/engine/src/ring.rs:31-33 | commands come out first in, first out |
| Recovery.CrashAndReplay | crates/wal/tests/crash_recovery.rs:57-150 | for every command stream in scope, flush policy and cut: replaying the cut log into linked books gives valid books, those of a prefix of the live run, its tape a prefix of the live tape; with no cut, all of it |
| Recovery.CutReplay | crates/wal/src/reader.rs:27-49 | the prefix is that of the surviving records, and its last number is returned |
| Recovery.ProcessCrash | crates/wal/src/writer.rs:67-71 | in a directory with any torn sessions, a dead process loses nothing with a flush per record and fewer than k records with a flush every k |
| Recovery.HistoryRecovers | crates/wal/src/reader.rs:27-49 | replay over many torn sessions is the run over the surviving prefixes in order |
| Restart.TailExactly | crates/wal/src/reader.rs:36-39 | replay beyond a snapshot's number redoes exactly the commands after it if and only if the number separates the two |
| Restart.SnapshotRecovers | architecture.md:136 | snapshots of all symbols in time order, a log cut at any byte, a number that separates it: loading and replaying beyond the number gives books and events of the whole run up to the cut |
| Restart.RecoverShard | crates/wal/src/snapshot.rs:85-127 | the same on linked books: each symbol's list is loaded, the surviving records beyond the number are applied, and the books are valid and those of the whole run |
| Restart.RestartExactly | crates/engine/src/shard.rs:45-51 | with sessions that share no command, a replay of the whole directory redoes what the running session was given if and only if no earlier record survives and none of its own is lost |
| Restart.RestartDiffers | crates/engine/src/shard.rs:45-47 | a surviving order of an earlier session is in the replayed book and not in the running one |

## Left out

- BookState.OrderBook.PopHead: the exact value of `PriceLevel.count` is not stated; the source leaves it alone on a pop and raises it again on a reinsert, so it only bounds the length of the level from above, which every operation keeps.
- Cascade.ApplyNew: releasing a stop-limit order is excluded; `StopLimit` shows why and when.
- Cascade.ApplyCommand: the state after a cancel or replace of a pending stop is described exactly (`Matcher.ApplyCancel`, `Cascade.ApplyReplace`), but runs do not continue from there.
- StopLimit.ReturnsExactly: works on the memory that this path reads (arena, opposite side, index, stop map), not on `BookState.OrderBook`, since the order's own side is already corrupted in the case that does not return; several pending stops at once are covered only by `StopLimit.HauntedForever`.
- Snapshot.LoadSnapshot: only for lists with distinct ids, as a save gives; one without stops must hold resting limit orders within 64 bits.
- Snapshot.Reload: for books whose orders carry the book's symbol, which is what routing by symbol gives; `Snapshot.SaveSnapshot` has the general list.
- Restart.SnapshotRecovers: for snapshots of books without pending stops and a log of one session; the engine itself never loads a snapshot.
- Engine.EveryRun: the counter is unbounded in the step system; `Runtime.Sequencer.Next` has the wrap.
- Engine.SerialOrder: queues of positive capacity; one of capacity 0, a rendezvous in the channel library, is modelled as one that never takes a push.
- Engine.LogBeforeApply: an append that fails writes nothing; a failed append that leaves half a record behind is not modelled.
- Runtime.RunShard: the queue's content is given when the loop starts, and appends succeed; arrivals in between and failing appends are steps of `Engine`.
- Runtime.LogAndApply: appends succeed, as in `Runtime.RunShard`.
- Writer.WalWriter.Append: the file system never fails, and durability across power loss is not claimed; a roll flushes the old segment without syncing it.
- Price levels are values in a map that the book's methods reassign, as an entry of the source's ordered map is; the arena is a value with the allocation order of the slab library.
- The status and sequence fields of orders and books that no decision reads.
- Segment file names: indexes beyond ten digits would no longer sort by name.
- JSON, the checksum polynomial, threads, clocks, core pinning, metrics and the fan-out of events to subscribers; payloads are any lossless encoding, times are inputs.
- The protocol, market-data, gateway, load-generator, ML and web parts: input and output, user interface and statistics.
