# Replay and validation of exchange order books

A Dafny model of a market-data replay tool: it rebuilds limit order books from Shanghai and
Shenzhen order and trade records and compares them with the exchanges' reference snapshots. Each
module stands for one part of the program; `dafny verify dfyconfig.toml` checks everything.

* **The order book.** `Book` says what the book means: one FIFO queue of keys per price, hidden
  orders beside them, seen keys, statistics. `OrderBook` is the class with the arena, the linked
  levels, the incremental aggregates and the plan-then-commit code; it is proved to refine `Book`
  step by step (`Arena` and `Trades` hold the lemmas on linking and on two-sided trades).
  `Effects` tells what each event does, and when it is accepted, by the event and the old book alone,
  and `Reentry` who may ever rest again by how it was added. `BookRuns`, `Crossing`, `History`, `Fifo`
  and `HiddenOrders` prove what holds over whole runs, and `Invariants` shows that the book's own audit
  accepts exactly the storages that represent a book.
* **Native order.** `Sequence` repairs a stream by merging natural runs, `Spool` is the binary
  format in between and `Layout` its bytes. `Rows` says which event a Shenzhen row becomes and
  `RowEffects` what the row does to the book by its own fields, `Pending` and `Groups` which
  executions answer an open order, `Tracking` what they do to it in the book; `Runtime` is one
  symbol's book with its memory, `Merging` the union of two streams, and `Replay` the channel that
  applies both streams to one runtime per symbol.
* **Validation.** `Views` holds views, means and compact references; `Observations` what a replay
  shows; `Candidate` the cached and pruned comparison beside the plain one, and `Comparison` what a
  difference is, field by field; `Windows` what a sequence of observations decides, that it uses every
  state inside a window and never looks past it. `Snapshot` is the scheduled grid and
  `Scheduling` joins it to the replay; `ClosePrice` is the sliding closing average, `Phases` the
  selection of reference frames and `Days` what it keeps of a normal day, `Report` the accounting.

How the model is cut. Integers are unbounded; every checked operation of the program compares with
the bound of its width, so overflow is an explicit error. A counter map is a multiset, a bit mask a
set of fields, a binary heap the choice of its least entry, an ordered map a map with the choice of
its best key. Errors are tagged values without text. Every method that changes state is proved
against a function of its old state or against the property the program promises.

One statement one might expect fails. A book can cross or lock: a sell and a buy at its price that
both rest unconditionally do it (`Crossing.TwoRests`). The exact condition is a visible order that
rests unconditionally at a crossing price (`Crossing.StepUncrossed`), and every crossed run contains
one (`Crossing.RunCrossesOnlyByRest`).

## Model

| member | source | states |
|---|---|---|
| `OrderBook.OrderBook.Apply` | src/order_book/book.rs:143-161 | The in-place book does to its abstract book exactly what the specification prescribes for the event, and with it what the event tells: accepted if and only if it is possible, with the told effect on orders, queues, prices and numbering; a refusal names what stands in the way, is never one of the defensive ones and leaves the whole object unchanged. |
| `OrderBook.OrderBook.RestPendingOrder` | src/order_book/book.rs:163-198 | The adapter's completion succeeds exactly for a hidden order that may not re-enter, at a price no opposite level meets, with room; the order then stands last at that price; on any error nothing changes. |
| `OrderBook.OrderBook.ApplyAdd` | src/order_book/book.rs:217-267 | An order is added exactly when it can be, whole, at the price its pricing means, resting behind everybody or hidden as its crossing behaviour says, and with the right to re-enter exactly if that is HideIfCrossing or RestAtLastTradePrice; duplicate, unpriced and overflow errors change nothing. |
| `OrderBook.OrderBook.Admit` | src/order_book/book.rs:232-267 | A fresh order, hidden or linked by its plan, is in the abstract book hidden or at the tail of its price. |
| `OrderBook.OrderBook.ApplyCancel` | src/order_book/book.rs:269-293 | Cancelling removes the order from its queue or from hiding and reports what it still held; an unknown key changes nothing. |
| `OrderBook.OrderBook.ApplyTrade` | src/order_book/book.rs:295-370 | A trade planned completely against the old state has the effect of reducing one order, then the other, then letting each hidden remainder rest if the resulting book allows it; all errors leave the object unchanged, even the overflow of the second re-entry. |
| `OrderBook.OrderBook.SettleTrade` | src/order_book/book.rs:313-370 | Planning on the old state and then committing leaves the book that both fills and both re-entries, in this order, would leave; any error, of the statistics or of either re-entry, leaves everything as it was. |
| `OrderBook.OrderBook.PlanTrade` | src/order_book/book.rs:295-349 | All four plans, computed before anything is written, succeed or fail exactly as the sequential trade does, and are ready to be committed. |
| `OrderBook.OrderBook.BuildTradePlan` | src/order_book/book.rs:438-485 | A plan exists unless the trade exceeds the order; it describes the reduced order and side aggregate, and no defensive branch is taken. |
| `OrderBook.OrderBook.BestAfterTradeIsBest` | src/order_book/book.rs:664-689 | The post-trade best price predicted from the old levels is the best price of the book after the fill. |
| `OrderBook.OrderBook.ReentryDecision` | src/order_book/book.rs:313-347 | The re-entry decision taken on predicted best prices is the one the book after the trade asks for. |
| `OrderBook.OrderBook.PlanReentry` | src/order_book/book.rs:691-707 | The plan for a remainder fails exactly when resting it in the book after the trade would, with the same error. |
| `OrderBook.OrderBook.ValidateReentry` | src/order_book/book.rs:691-707 | A re-entry plan fits the level it will join and fails only when the side quantity would overflow. |
| `OrderBook.OrderBook.ValidateAttach` | src/order_book/book.rs:519-555 | Level total, count, tail and side aggregate of the plan are those after joining; only the side quantity can overflow. |
| `OrderBook.OrderBook.ValidateDetach` | src/order_book/book.rs:573-621 | Every defensive check of a removal passes in a valid book. |
| `OrderBook.OrderBook.ValidateAggregateAdd` | src/order_book/book.rs:788-806 | Adding to a side aggregate overflows in the quantity or not at all. |
| `OrderBook.OrderBook.ValidateAggregateSub` | src/order_book/book.rs:808-826 | Subtracting succeeds exactly when the aggregate covers quantity and weighted price, and names the one it does not cover; that neither ever falls short is part of `OrderBook.OrderBook.ValidateDetach` and `OrderBook.OrderBook.BuildTradePlan`. |
| `OrderBook.OrderBook.ValidateTradeStatistics` | src/order_book/book.rs:487-517 | New statistics are the recorded ones; only the total quantity can overflow. |
| `OrderBook.OrderBook.CommitAttach` | src/order_book/book.rs:557-571 | Linking writes exactly the planned level, tail link and side aggregate; that this is joining the abstract queue is `Arena.AttachRefines`. |
| `OrderBook.OrderBook.CommitDetach` | src/order_book/book.rs:623-662 | Unlinking writes exactly both neighbours, the shorter level (or none) and the side aggregate; that this is leaving the abstract queue is `Arena.DetachRefines`. |
| `OrderBook.OrderBook.CommitTradePlan` | src/order_book/book.rs:709-737 | A fill decrements in place, removes, or reprices a hidden remainder, as the abstract fill does. |
| `OrderBook.OrderBook.CommitFills` | src/order_book/book.rs:349-361 | Committing the first trade plan leaves the second one and both re-entry plans correct. |
| `OrderBook.OrderBook.CommitReentries` | src/order_book/book.rs:362-370 | Both re-entry plans are still correct when they are committed, the second after the first. |
| `OrderBook.OrderBook.OrdersAt` | src/order_book/book.rs:908-926 | Following the links from a level's head yields exactly the abstract queue of that price, in FIFO order. |
| `OrderBook.OrderBook.VisibleAggregate` | src/order_book/book.rs:828-836 | The incrementally kept aggregate is the sum of quantity, and of price times quantity, over the side's resting orders. |
| `OrderBook.OrderBook.VisitLevels` | src/order_book/book.rs:869-905 | Visiting the stored levels from the best one on shows the abstract book's best levels with their totals and counts. |
| `OrderBook.OrderBook.CrossesOpposite` | src/order_book/book.rs:397-403 | A price crosses exactly when the abstract book says so. |
| `OrderBook.OrderBook.ResolvePrice` | src/order_book/book.rs:372-395 | Pricing instructions resolve to the best prices of the abstract book. |
| `OrderBook.OrderBook.ResolveTradeReference` | src/order_book/book.rs:405-436 | A trade reference finds the active order, reports an inactive one, or has the wrong side. |
| `OrderBook.OrderBook.ValidateMeta` | src/order_book/book.rs:200-215 | The book key and the apply sequence are checked as specified. |
| `OrderBook.OrderBook.CacheRevision` | src/order_book/book.rs:127-129 | A saturated revision is never offered for caching. |
| `OrderBook.OrderBook.constructor` | src/order_book/book.rs:96-111 | A new book is empty and valid. |
| `OrderBook.OrderBook.CheckInvariants` | src/order_book/book.rs:973-1075 | In every reachable state the book's own audit finds nothing. |
| `Invariants.CheckInvariants` | src/order_book/book.rs:973-1075 | On any storage whatever, the audit ends well if and only if the storage represents a structured book: the executable invariant is exactly the refinement invariant. |
| `Invariants.WalkLevel` | src/order_book/book.rs:998-1037 | Walking a level ends well exactly when it has a null-terminated list, linked back at every place, whose recount is the level's; cycles and shared orders are found. |
| `Invariants.CheckSide` | src/order_book/book.rs:995-1053 | A side passes exactly when every level has its list and the aggregate is the recount. |
| `Invariants.CheckIndex` | src/order_book/book.rs:974-992 | The index passes exactly when every entry finds its own order, seen and within its original quantity. |
| `Invariants.AuditedMeansSound` | src/order_book/book.rs:973-1075 | From a passed audit the abstract book can be read off the links. |
| `Invariants.SoundMeansAudited` | src/order_book/book.rs:973-1075 | Every representing storage passes every check. |
| `OrderBook.FirstSurvivingIsBest` | src/order_book/book.rs:664-689 | The first level, best first, that keeps quantity after a reduction is the best surviving price. |
| `Arena.AttachRefines` | src/order_book/book.rs:557-571 | On the storage as a value: linking an order at the tail represents the abstract book with the order at the end of its queue, aggregates included. |
| `Arena.DetachRefines` | src/order_book/book.rs:623-662 | Unlinking any position of a doubly linked level represents the abstract removal. |
| `Arena.ReduceRefines` | src/order_book/book.rs:709-737 | Reducing a resting order in place represents the abstract partial fill. |
| `Arena.HideRefines` | src/order_book/book.rs:253-267 | Storing a hidden order unlinked represents the abstract book with it. |
| `Arena.ReleaseRefines` | src/order_book/book.rs:283-293 | Dropping a hidden order represents its abstract removal. |
| `Arena.HiddenUpdateRefines` | src/order_book/book.rs:709-737 | Reducing or repricing a hidden order represents the abstract fill. |
| `Trades.TradedSides` | src/order_book/book.rs:295-347 | Each side of the book after a trade depends on that side's fill alone. |
| `Trades.FilledLevel` | src/order_book/book.rs:664-689 | A level loses exactly the fill's share, which is what the prediction subtracts. |
| `Trades.RestedFrame` | src/order_book/book.rs:739-751 | A first re-entry changes nothing the second one's plan relies on. |
| `BookRuns.RunWellFormed` | src/order_book/book.rs:143-198 | Every book reached by any run of events and completions is well formed: queues and orders describe each other, keys are seen, side totals fit, statistics are bounded. |
| `BookRuns.StepKeepsWellFormed` | src/order_book/book.rs:143-198 | Each step keeps the book well formed. |
| `Crossing.RunUncrossed` | src/order_book/book.rs:217-267 | No run whose adds avoid unconditional resting ever crosses or locks the book. |
| `Crossing.StepUncrossed` | src/order_book/book.rs:143-198 | A successful step leaves an uncrossed book uncrossed if and only if it is not an unconditional rest at a crossing price; trades with two re-entering remainders are included. |
| `Crossing.AttachUncrossed` | src/order_book/book.rs:313-347 | Resting keeps the book uncrossed exactly when the crossing test says it does not cross. |
| `Crossing.RunCrossesOnlyByRest` | src/order_book/book.rs:217-267 | A run that ends crossed contains a step that unconditionally rested across. |
| `Crossing.TwoRests` | src/order_book/book.rs:217-267 | The input that crosses: a sell and a buy that both rest unconditionally leave a crossed or locked book exactly when the buy pays at least what the sell asks. |
| `History.RunConserves` | src/order_book/book.rs:217-293 | For every key over every run: quantity added = remaining + traded away + cancelled, and a key is added at most once. |
| `History.RunSummarizes` | src/order_book/book.rs:487-517 | Statistics are the sums, extremes, last price and count of exactly the successful trades of the run. |
| `History.RunTurnover` | src/order_book/book.rs:487-517 | After any trade: low <= last <= high, and the turnover lies between low and high times the traded quantity. |
| `History.RevisionNamesBook` | src/order_book/book.rs:127-129 | Along one run, equal unsaturated revisions mean equal books. |
| `Fifo.RunFair` | src/order_book/book.rs:557-662 | Over any run, whoever waits before another at a price stays before it while both are in the book, and newcomers stand behind those who stay. |
| `Fifo.StepFair` | src/order_book/book.rs:557-662 | One step keeps the order of those who stay, keeps them waiting, and puts newcomers behind them; keys are never reused. |
| `HiddenOrders.TradeLeavesCrossing` | src/order_book/book.rs:313-347 | After a trade, a party that may re-enter and knows a price is still hidden only if it crosses the book the trade left, the other party's re-entry included. |
| `HiddenOrders.TradeOrder` | src/order_book/book.rs:295-370 | A trade takes its quantity from its parties and touches no other order; a hidden party takes over the trade price exactly when it was told to; what rests goes on resting at its price. |
| `HiddenOrders.RunFollows` | src/order_book/book.rs:217-370 | Over any run, a hidden market remainder stands at the price of the last trade that took from it. |
| `Effects.AddDecides` | src/order_book/book.rs:217-267 | An add succeeds if and only if its key is new, its pricing finds a price where it needs one (the head of its own side, or of the other), it is priced if it rests at once, and then its side has room. |
| `Effects.AddEffect` | src/order_book/book.rs:217-267 | Told by the event: the order is new, whole, priced as instructed; it rests at once always, or exactly while no opposite level meets its price, or not at all, by its crossing behaviour; resting, it stands behind everybody at its price; nothing else changes. |
| `Effects.CancelEffect` | src/order_book/book.rs:269-293 | A cancellation succeeds exactly for an active order; the order is gone, its place in its queue is taken out and every other queue stands as before. |
| `Effects.CompletionEffect` | src/order_book/book.rs:163-198 | A completion succeeds exactly for a hidden order without the right to re-enter, at a price that no opposite level meets, with room on its side; the order then stands last at that price. |
| `Effects.TradeDecides` | src/order_book/book.rs:295-370 | From the old book alone: a trade succeeds if and only if its references are on their sides (and known where that is asked for), both parties hold its quantity, the total has room, and so have the sides of exactly the parties that will come to rest. |
| `Effects.TradeEffect` | src/order_book/book.rs:295-370 | From the old book alone: who survives, with what quantity and limit; a hidden party with the right to re-enter rests exactly when no surviving opposite order meets its limit, the seller also looking at the buyer that just came to rest; every queue is its survivors in order, with that party behind them. |
| `Reentry.StepTold` | src/order_book/book.rs:143-198 | Every step succeeds exactly when it is for this book, next in its numbering and possible in itself, has the effect its event tells and stamps the book with it; a refused one changes nothing. |
| `Reentry.RefusalExplained` | src/order_book/book.rs:143-161 | Every refusal is true: the values an error carries are those of the event and of the book that stand in its way. |
| `Reentry.CompletionRefused` | src/order_book/book.rs:163-198 | A refused completion is unknown, not pending, crossing or too much for its side, as its error says. |
| `Reentry.RunMarks` | src/order_book/book.rs:217-267 | Over any run, by the event that added it: an active order may re-enter exactly if added as HideIfCrossing or RestAtLastTradePrice, follows its trades exactly in the latter case, always rests if added as Rest, and if added as AlwaysHide rests exactly when some completion of it succeeded. |
| `Reentry.TradedParty` | src/order_book/book.rs:247-250 | Over any run: an order added as HideIfCrossing or RestAtLastTradePrice that a trade names and leaves active rests behind it exactly if it rested or no opposite level of the new book meets its price, which for a hidden RestAtLastTradePrice order is the price of the trade; the others keep resting or stay hidden. |
| `Reentry.Rises` | src/order_book/book.rs:313-347 | Over any run: a hidden order comes to rest only by a trade that names it, if it may re-enter, and otherwise only by its own completion, if added as AlwaysHide. |
| `Reentry.EmergesFree` | src/order_book/book.rs:313-347 | Deciding on the survivors of the old book is deciding on the levels of the new one. |
| `Reentry.RunNumbered` | src/order_book/book.rs:131-161 | Over any run the accepted events are all of this book, numbered from one without a gap, and the book remembers the last. |
| `BookInvariants.AttachKeepsWellFormed` | src/order_book/book.rs:557-571 | Joining a queue within the quantity limit keeps the book well formed. |
| `BookInvariants.RemoveKeepsWellFormed` | src/order_book/book.rs:623-662 | Removing any order keeps the book well formed. |
| `BookInvariants.FillKeepsWellFormed` | src/order_book/book.rs:709-737 | Any fill within the remaining quantity keeps the book well formed. |
| `BookInvariants.AttachMoves` | src/order_book/book.rs:788-806 | Joining moves both side totals by the order's share and no other total. |
| `Depth.WeightedBounds` | src/order_book/book.rs:788-831 | The weighted side total lies between the extreme prices times the quantity. |
| `Sequence.NaturalRuns.Repair` | src/production/sequence.rs:59-97 | Repair succeeds if and only if all sequences are distinct, and otherwise names one that occurs twice; it yields the strictly increasing permutation of the whole rows, and the number of passes is the least k with 32^k at least the number of natural runs. |
| `Sequence.NaturalRuns.Observe` | src/production/sequence.rs:44-57 | Run starts are exactly the first row and every descent; an immediate repetition is refused. |
| `Sequence.MergePass` | src/production/sequence.rs:146-202 | One pass merges groups of 32 runs into increasing runs tiling a permutation of the file, or finds a sequence that the file repeats. |
| `Sequence.MergeGroup` | src/production/sequence.rs:166-196 | The heap merge of up to 32 increasing runs is their increasing union, or names a sequence that occurs twice in them. |
| `Sequence.RunsAfterBound` | src/production/sequence.rs:78-88 | How many passes reduce n runs to one. |
| `Sequence.PermutationDistinct` | src/production/sequence.rs:166-196 | Rearranging rows neither makes nor hides a repeated sequence. |
| `Spool.ReadRowsExact` | src/production/spool.rs:439-645 | A stream reads as a list of rows and then end of file if and only if it is the encoding of that list: round trip and canonical form for all three row types. |
| `Spool.Reads` | src/production/spool.rs:439-594 | Reading returns any encoded row, whatever follows it. |
| `Spool.Read` | src/production/spool.rs:458-594 | Whatever reads as a row is byte for byte what writing that row gives; none is read exactly at the end of the stream. |
| `Spool.PutShape` | src/production/spool.rs:239-244 | Rows are 77, 60 and 75 bytes wide, and bytes 8..16 decode to the sequence. |
| `Spool.RowAt` | src/production/sequence.rs:111-143 | Row k of a file stands at the cursor's offset and carries the sequence the merge sorts by. |
| `Layout.RecordLayout` | src/production/spool.rs:439-637 | Every field of every kind of row stands at its own byte offset: numbers least byte first, prices and times in two's complement, kinds, sides and flags as their codes. |
| `Layout.LowestFirst` | src/production/spool.rs:695-735 | Byte i of a number is its i-th lowest. |
| `Spool.RepairedReadsBack` | src/production/spool.rs:239-262 | The repaired file reads back as the spooled rows, rearranged into strictly increasing sequence. |
| `Spool.Write` | src/production/spool.rs:439-637 | What is written for a row reads back as that row with nothing left over, in the fixed width of its kind; exactly the symbols that are not ASCII are refused. |
| `Spool.SpoolWriter.Append` | src/production/spool.rs:596-637 | A written file is the header and the encoding of the rows so far; after a refused symbol there are twenty stray bytes, and the file is no encoding of any list of rows. |
| `Spool.SpoolReader.Open` | src/production/spool.rs:427-437 | A file opens exactly when it starts with the header of its kind. |
| `Spool.SpoolReader.NextRow` | src/production/spool.rs:411-415 | On any bytes: none exactly at the end, an error exactly when what is left does not start with a row, and otherwise that row; encoded rows come one by one. |
| `Spool.LittleEndianRoundTrip` | src/production/spool.rs:695-735 | Little-endian bytes decode to the value they encode. |
| `Spool.BytesRoundTrip` | src/production/spool.rs:695-735 | Any bytes are the encoding of the value they decode to. |
| `Views.AggregateSideMean` | src/production/snapshot.rs:92-105 | In a reachable book a side's mean exists unless the side is empty, lies between its lowest and highest price, is the exact mean rounded half up, and its conversions never fail. |
| `Views.RoundToQuantumExact` | src/production/validation.rs:548-563 | Rounding succeeds exactly while its two sums fit 128 bits, and gives the multiple of the quantum nearest to the exact mean, the greater of two as near. |
| `Views.OneHalfUp` | src/production/validation.rs:548-563 | There is only one such multiple. |
| `Views.QuantizeIdempotent` | src/production/validation.rs:508-510 | Quantizing a multiple of the quantum changes nothing. |
| `Views.PublishedExact` | src/production/validation.rs:530-546 | A side publishes nothing exactly when it is empty, and otherwise its exact mean on the quantum grid, half up, which survives the comparison's second quantizing; it fails exactly when that price or a sum on the way leaves its width. |
| `Views.PublishedOk` | src/production/validation.rs:530-546 | A reachable book whose level prices leave room for one quantum always publishes. |
| `Views.TopLevelsExact` | src/production/snapshot.rs:74-90 | The shown levels are whole levels, strictly best first, and nothing at least as good as a shown price is missing. |
| `Views.FromLevels` | src/production/validation/reference.rs:22-41 | Compacting succeeds exactly for at most ten levels with 32-bit counts, and expanding gives the levels back. |
| `Views.MatchesIsExpansion` | src/production/validation/reference.rs:14-50 | Comparing with the compact arrays is comparing with the expanded levels. |
| `Candidate.SymbolValidation.ObserveCandidates` | src/production/validation/candidate.rs:527-654 | One observation leaves every reference, opening and continuous, exactly as comparing it from scratch with the rebuilt view would; it fails exactly when one of those comparisons fails. |
| `Candidate.SymbolValidation.CompareCandidate` | src/production/validation/candidate.rs:360-518 | The cached comparison, pruned on scalars alone, equals the plain one, which `Comparison.FoundExact` ties to the fields of the two views. |
| `Comparison.FoundExact` | src/production/validation/candidate.rs:133-315 | Field by field: the comparison finds nothing if and only if both depths, totals, last, high and low price, trade count and quantity are equal, both weighted prices are absent or within ten units of the quantized one, and the turnover is equal or explained; and it lists exactly the fields that disagree, in order, each with its own two values. |
| `Comparison.PrecisionExplains` | src/production/validation/precision.rs:25-48 | An unequal turnover is excused exactly when the frame has no reception time and the reference is the actual value rounded half up to twelve significant digits. |
| `Comparison.PrecisionTold` | src/production/validation/precision.rs:25-48 | What is noted of it: both values and the unit of the last digit. |
| `Comparison.QuantizeIs` | src/production/validation.rs:508-510 | The quantized price is the one multiple of the quantum that rounding half a quantum up, then truncating, means. |
| `Candidate.SymbolValidation.Prepare` | src/production/validation/candidate.rs:75-95 | After preparing, the cached view is the observed book's, though only the revision was compared. |
| `Candidate.SymbolValidation.ObserveContinuous` | src/production/validation/candidate.rs:583-620 | Starting at the position and stopping at the first window not yet open misses no reference. |
| `Candidate.SymbolValidation.ObservePreOpen` | src/production/validation/candidate.rs:544-579 | The opening reference's second of candidates, and its finalization. |
| `Candidate.SymbolValidation.FinishContinuous` | src/production/validation/candidate.rs:633-652 | The end of the channel gives every open window its last candidate and closes it. |
| `Candidate.MaskMeansFound` | src/production/validation/candidate.rs:133-183 | The complete mask has as many bits as the list has differences; the scalar bits alone have no more. |
| `Candidate.MaskCounts` | src/production/validation/candidate.rs:124-126 | Listing the differing fields counts the mask's bits. |
| `Candidate.ScalarsIgnoreDepth` | src/production/validation/candidate.rs:412-447 | The scalar bits do not change when the depth is filled in. |
| `Candidate.TrimmedIsFound` | src/production/validation/candidate.rs:465-479 | The retained list without an explained turnover is the list of counted differences. |
| `Candidate.FullViewExact` | src/production/validation/candidate.rs:49-72 | The rebuilt view of any book: exact side totals, mean prices on the quantum grid rounded half up, the ten best whole levels of each side, best first, and the book's own statistics field by field. |
| `Candidate.FullViewOk` | src/production/validation/candidate.rs:49-72 | Every book that any run reaches has a view, as long as no level price is within one quantum of the largest price. |
| `Windows.ObserveRun` | src/production/validation/candidate.rs:527-654 | Over any sequence of observations along one run, the cached, pruned and position-skipping validator ends with the outcome of the plain one; it fails exactly when the plain comparison of some reference fails (or the opening window has no end in time), and never where the windows lie in the range of times and prices leave room to round up. |
| `Windows.OutcomeFails` | src/production/validation/candidate.rs:527-654 | With such prices the plain comparison of a fresh reference fails exactly when, before the channel is finished, an edge of its window is asked for that is no 64-bit time. |
| `Windows.OutcomeJudged` | src/production/validation/candidate.rs:360-518 | A reference is matched if and only if the book at some candidate agrees with it field by field, by the first such, with that book's last sequence numbers and any turnover precision noted; otherwise it keeps the first of the candidates with the fewest differences. |
| `Windows.FoundAt` | src/production/validation/candidate.rs:360-518 | What is kept of a candidate lists exactly its disagreements. |
| `Windows.CandidatesExact` | src/production/validation/candidate.rs:549-620 | The candidates are exactly the states shown at a quoted time in [start, end), and the one shown first when the end is reached, in front of an event or of nothing more, until then. |
| `Windows.CandidatesInside` | src/production/validation/candidate.rs:549-620 | Every candidate's time lies in [start, end) and its book holds only events quoted before the end, even when times go back. |
| `Windows.MatchIsSafe` | src/production/validation/candidate.rs:486-511 | A match comes from such a candidate, and its recorded time is the candidate's. |
| `Windows.FinalizedForever` | src/production/validation/candidate.rs:368-370 | A finalized reference never changes again. |
| `Windows.FailedForGood` | src/production/validation/candidate.rs:527-654 | A comparison that failed on some observations fails on all that go on from them. |
| `Windows.OpenMeansBeforeEnd` | src/production/replay.rs:844-884 | While a window is open, only events quoted before its end have been applied. |
| `Pending.PendingOrder.Observe` | src/production/sz_pending.rs:58-110 | A response is taken exactly when the answer stays well formed: adjacent sequence, same quote time, within the remainder, at most 65,536 responses; a refused one changes nothing. |
| `Pending.PendingOrder.Finish` | src/production/sz_pending.rs:116-147 | Terminal exactly when everything is answered; a rest is inferred only by the diagnostic policy, with the next native sequence as boundary, when every trade was at the old opposite best. |
| `Replay.SzChannel.ReplayRows` | src/production/replay.rs:415-545 | A replay that ends well has applied exactly the rows of both streams, which share no sequence, in strictly increasing order; each symbol's book is the run of exactly its own rows' events; nobody is left hidden, and unless rests are inferred every order that had to take what it found is gone. One that fails stopped at two rows of one sequence or at the first row (or group) that its symbol's book does not accept; even then the applied rows are the merged front of both streams and every book is the run of its rows. |
| `Replay.SameStreamsSameBooks` | src/production/replay.rs:415-545 | Unless rests are inferred, replaying the same two streams again gives every symbol the same run and the same book. |
| `Replay.BookAccounts` | src/production/replay.rs:415-545 | After a replay, each symbol's book, under the key of its market, day and symbol, is what that symbol's rows of both streams add up to. |
| `Replay.SzChannel.TakeOrder` | src/production/replay.rs:452-501 | An order is taken exactly when it is acceptable where its symbol's book stands, with the one group of executions that answers it when its fate is open, none numbered behind the next order. |
| `Replay.SzChannel.CompleteGroup` | src/production/replay.rs:606-696 | A collected group is applied exactly when each of its rows is accepted in turn and the remainder may rest; a failed one leaves the rows before the refused one applied. |
| `Replay.SzChannel.TakeExecution` | src/production/replay.rs:505-524 | A lone execution is taken exactly when its time fits and its symbol's book accepts its event; no other book changes. |
| `Replay.RowRests` | src/production/replay.rs:699-841 | A row outside any group hides nobody and shows observers both of its sides. |
| `Groups.CollectPendingGroup` | src/production/replay.rs:554-601 | Collecting succeeds exactly when the order has a group: the executions from the cursor on that answer it, none behind the next order, up to where the group must end, with everything answered, or with a rest that the diagnostic policy infers at the old opposite best before an adjacent native sequence. |
| `Groups.GroupUnique` | src/production/replay.rs:554-601 | There is at most one such group and disposition. |
| `Groups.AnswersFront` | src/production/sz_pending.rs:58-110 | The front of a well-formed answer is well formed and not yet complete. |
| `Runtime.BookRuntime.ApplyPendingGroup` | src/production/replay.rs:606-696 | A group is applied exactly when every row of it is accepted in turn and the inferred rest, if any, is; it leaves its order absent, or resting at the inferred price with what was left; nobody stays hidden, and observers see only its outside. |
| `Runtime.BookRuntime.ApplyResponses` | src/production/replay.rs:606-696 | The collector's remainder and the book's own never part, row by row. |
| `Runtime.BookRuntime.ProcessOrder` | src/production/replay.rs:699-765 | An order row is applied exactly when its time fits and its own fields allow it, and then does to the book what they tell: a limit order rests behind everybody at the row's price, one at its side's best price behind everybody there, any other is hidden without a price; the run goes on by exactly this event. |
| `Runtime.BookRuntime.ProcessExecution` | src/production/replay.rs:767-841 | An execution row is applied exactly when its time fits and its own fields allow it: a trade takes the row's quantity at the row's price from the active orders its numbers mean, and a cancellation removes the one order it names and exactly covers. |
| `Runtime.BookRuntime.CheckQuoteTime` | src/production/replay.rs:278-331 | A time is accepted exactly if it does not go back, or goes back within one and the same second and no snapshots are scheduled; going back does not move the watermark. |
| `Runtime.ExtendedAdds` | src/production/replay.rs:606-696 | The rows of a group add nobody but their own order. |
| `Runtime.GroupShown` | src/production/replay.rs:606-696 | The observations of a group keep the before/after protocol. |
| `Runtime.TimeGoesOn` | src/production/replay.rs:278-301 | With a schedule, no observed business time lies before an earlier one. |
| `Rows.RowsDecide` | src/production/replay.rs:699-841 | Unless rests are inferred, a symbol's rows alone decide the run of its book. |
| `Rows.DirectoryLeads` | src/production/replay.rs:303-305 | A number leads to the order of that channel, side and number. |
| `Rows.GoneForGood` | src/production/replay.rs:606-696 | An order that was hidden and has left never comes back. |
| `Rows.InferredTold` | src/production/replay.rs:606-696 | An inferred rest is at the one price at which the order traded part of its quantity, which headed the other side of the book in front of the order. |
| `RowEffects.OrderRowAccepted` | src/production/replay.rs:699-765 | An order row is accepted if and only if its channel, number, quantity and limit price are positive, its key is new, the book can number it, and its side has room where it rests. |
| `RowEffects.OrderRowTold` | src/production/replay.rs:699-765 | What an accepted order row leaves, by its own fields: price, quantity, place, right to re-enter and the remembered metadata. |
| `RowEffects.TradeRowAccepted` | src/production/replay.rs:767-841 | A trade row is accepted if and only if price, quantity and sequence are positive, each number it gives means an active order that holds the quantity, and everything it adds to has room. |
| `RowEffects.TradeRowTold` | src/production/replay.rs:767-841 | What an accepted trade row leaves: whoever it names loses its quantity and is gone when nothing is left, nobody else changes, and the statistics count its price and quantity. |
| `RowEffects.CancelRowAccepted` | src/production/replay.rs:767-841 | A cancellation row is accepted if and only if exactly one of its numbers is set and means an active order that still holds exactly its quantity. |
| `RowEffects.CancelRowTold` | src/production/replay.rs:767-841 | What an accepted cancellation row leaves: exactly the named order is gone. |
| `RowEffects.RowAccepted` | src/production/replay.rs:699-841 | Behind any rows that drove the book, the next row is accepted exactly when its own fields allow it, and has the effect they tell. |
| `RowEffects.RunTraceable` | src/production/replay.rs:303-321 | Behind any rows, every active order is of the channel and was named by a row, and a number leads to its key. |
| `RowEffects.RunAccounts` | src/production/replay.rs:699-841 | Over any driven run the book is what its rows add up to: its last row and their number, last, high, low, sums and count of exactly their trades, and of every order what its row brought less what the executions naming it took. |
| `RowEffects.RunAddsAs` | src/production/replay.rs:720-743 | Limit orders were added to rest, market orders hidden, to rest at their last trade price exactly where the policy says so. |
| `RowEffects.MarketRemainder` | src/production/replay.rs:720-743 | Under the policy that rests market orders at their last trade, a hidden market order that a trade row leaves something of stands at the row's price, and rests there exactly when the book it left does not meet it. |
| `Tracking.TradeKeepsPending` | src/production/replay.rs:767-841 | A trade takes its quantity from the pending order exactly when it names it, and hides nobody else. |
| `Tracking.ExecutionTakes` | src/production/replay.rs:767-841 | An execution row takes its quantity from the pending order exactly when it carries that order's number. |
| `Tracking.OrderHides` | src/production/replay.rs:699-765 | An order row either hides its order with its whole quantity or lets it rest. |
| `Merging.MergedGroup` | src/production/replay.rs:415-545 | A whole group joins the merge in order. |
| `Merging.UnionDisjoint` | src/production/replay.rs:415-545 | Only streams without a common sequence have a strictly increasing union. |
| `Merging.UnionUnique` | src/production/replay.rs:415-545 | Given rows have at most one strictly increasing arrangement. |
| `Snapshot.SnapshotCursor.DrainDue` | src/production/snapshot.rs:173-183 | What is drained and what is still ahead make up what was ahead; everything drained is due and nothing due stays. |
| `Snapshot.SnapshotCursor.StartSession` | src/production/snapshot.rs:189-204 | A session's first grid time, or the next session with one. |
| `Snapshot.SnapshotCursor.Advance` | src/production/snapshot.rs:206-220 | The next grid time, across the noon break. |
| `Snapshot.SessionRestExact` | src/production/snapshot.rs:189-220 | A session's grid is every start + k * interval up to its end, once each, in order. |
| `Snapshot.GridAscends` | src/production/snapshot.rs:148-171 | The day's grid is strictly increasing. |
| `Snapshot.GridTimes` | src/production/snapshot.rs:148-220 | A time is on the day's grid if and only if it lies a positive number of intervals behind 09:15 and not behind 11:30, or behind 13:00 and not behind 15:00. |
| `Snapshot.ScheduledBook.BeforeBusinessEvent` | src/production/replay.rs:844-884 | Everything due is captured before the event, from the book without it; when the day fits the time stamps it fails exactly when the time goes back. |
| `Snapshot.ScheduledBook.ApplyMoment` | src/production/replay.rs:606-696 | An event or a whole group of the announced time leaves every snapshot taken so far the left limit of the run. |
| `Snapshot.ScheduledBook.FinishChannel` | src/production/replay.rs:886-947 | At the end every grid time has exactly one snapshot, in order, each the view of the book after exactly the events quoted before it. |
| `Snapshot.Schedule` | src/production/replay.rs:844-947 | Over any observations that keep the replay's protocol, scheduling succeeds exactly when no business time goes back, and then every grid time of the day has one snapshot, in order, each the view of the book after exactly the events quoted before it. |
| `Scheduling.CaptureReplay` | src/production/replay.rs:606-947 | A symbol replayed under a schedule can always be captured to the end of the day: the replay's own log meets the protocol and the order of times, and the run captured is the one its rows drove. |
| `Snapshot.CapturedExact` | src/production/snapshot.rs:37-105 | A captured view of a reachable book: exact side totals, unquantized means rounded half up and between the side's prices, the best whole levels best first, and the statistics. |
| `Snapshot.CapturedOk` | src/production/snapshot.rs:37-72 | Capturing a reachable book never fails. |
| `ClosePrice.SzClosePriceTracker.Observe` | src/production/validation/sz_close_price.rs:27-104 | The deque is exactly the trades of the last sixty seconds, both sums are its sums, the range base is the last trade before 14:57; a trade is taken if and only if its price is not negative, its time does not go back and no number leaves its width. |
| `ClosePrice.LastMinuteExact` | src/production/validation/sz_close_price.rs:63-88 | The last minute is what remains of the trades behind the last one more than sixty seconds older than the newest. |
| `ClosePrice.BaseExact` | src/production/validation/sz_close_price.rs:90-101 | The base is the newest trade before the closing call. |
| `ClosePrice.ClosingClock` | src/production/validation/sz_close_price.rs:90-104 | On any day the closing call begins at 14:57 and ends at 15:00 by the exchange's clock. |
| `ClosePrice.SzClosePriceTracker.AverageClosePrice` | src/production/validation/sz_close_price.rs:106-117 | None exactly without volume; otherwise the last minute's mean on the quantum grid, half up, and an error if and only if that price, or one of the two sums on the way, leaves its width. |
| `ClosePrice.AverageExists` | src/production/validation/sz_close_price.rs:106-117 | The average exists whenever the minute's volume is a 64-bit number and its prices leave room for one quantum. |
| `ClosePrice.SzClosePriceTracker.Evict` | src/production/validation/sz_close_price.rs:67-88 | Eviction removes exactly the prefix before the cutoff, with its share of both sums. |
| `Phases.PhaseTracker.Observe` | src/production/validation/phases.rs:98-163 | A frame out of native order changes nothing; any other is selected, or skipped for its reason, exactly as the frames before it decide, and counted once: the audit is the multiset of all statuses, of the anchors and of the reasons, with the first frame of each reason that is sampled. |
| `Phases.PhaseTracker.ObserveSh` | src/production/validation/phases.rs:165-229 | The Shanghai selection over the frames seen: opening the first TRADE inside the window right behind OCALL; continuous every TRADE from continuous time on before any CCALL or close; close the first CLOSE right behind CCALL, or for an old fund right behind TRADE in continuous time without any CCALL. |
| `Phases.PhaseTracker.ObserveSz` | src/production/validation/phases.rs:231-283 | The Shenzhen selection: opening the first B0 right behind O0 before any T0 or C0; continuous every T0 before any C0; close the first E0 right behind C0. |
| `Phases.SelectionShaped` | src/production/validation/phases.rs:165-283 | For every sequence of frames in native order the selected anchors have the shape PreOpen? Continuous* MarketClose?. |
| `Days.NormalDay` | src/production/validation/phases.rs:165-283 | Of a day that runs its normal course, in Shenzhen or Shanghai, an old fund without closing auction included, the selection keeps exactly the opening result, every trading frame in order, and the first frame behind the closing auction. |
| `Phases.TimesCounted` | src/production/validation/loader.rs:60-143 | As many frames are kept for an anchor as the audit counts for it. |
| `Phases.PhaseTracker.Count` | src/production/validation/phases.rs:126-157 | The frame is counted once under its own status, and as its anchor or under its reason, with a sample if it is the first; the audit stays balanced. |
| `Phases.AuditedMore` | src/production/validation/phases.rs:126-157 | So counted, the audit stays the count of all frames so far. |
| `Phases.Load` | src/production/validation/loader.rs:60-143 | Loading ends well exactly for frames in native order, and keeps the times of exactly the selected frames, each under its anchor, none overwritten, the continuous ones by time. |
| `Report.BuildReport` | src/production/validation/report.rs:320-511 | Every report satisfies all equations the controller checks on counts, audits, coverage, details and outcome (analysis/run_full_market_validation.py:74-187), and says what the references came to: totals and every breakdown key count the classifications of exactly its cases, details are the retained ones in order with failures within the cap, audits and stages are those of the symbols. |
| `Report.ReportBuilder.ObserveSymbol` | src/production/validation/report.rs:342-463 | A symbol adds exactly the classifications of its cases, a late event tainting the Shenzhen close alone, and its coverage. |
| `Report.ReportBuilder.ObserveCase` | src/production/validation/report.rs:131-150 | After one more classified reference all counters are those of the longer list of classifications: totals, breakdown by key, retained and omitted details. |
| `Report.ReportBuilder.ObserveCoverage` | src/production/validation/report.rs:198-227 | Coverage counts symbols by classification, and every stage the symbols of its class, those with references there, and these. |
| `Report.Classify` | src/production/validation/report.rs:519-550 | Matched only without any error; which error wins. |
| `Report.SymbolVerdicts` | src/production/validation/report.rs:342-463 | Each reference of a symbol has one verdict, in the order of the anchors: late events make the close of a Shenzhen symbol a data error and touch no other reference; load errors, missing sources and failed comparisons come before the comparison's result. |
| `Report.OutcomeTold` | src/production/validation/report.rs:464-486 | A run fails exactly if some reference is not matched or a late event is unreviewed, and has nothing eligible exactly without references. |
| `Report.BreakdownObserve` | src/production/validation/report.rs:262-294 | The breakdown's sum moves as the totals do. |
| `Report.BrokenMore` | src/production/validation/report.rs:262-294 | Counting a classification under its key keeps every key the count of its own classifications. |
| `Report.DetailedCapped` | src/production/validation/report.rs:398-449 | All matches are kept in detail or none; failures stay within the cap, and none is left out before the list is full. |

## Left out

- Parquet and Arrow input and output, schema checks, file handles, temporary directories, buffering and flushing: files are byte or row sequences, and I/O errors other than a short or malformed file do not occur.
- Command line, benchmarks, profiling counters, serialization and error texts.
- The campaign controller in Python apart from its report equations, which are the specification of `Report.BuildReport`.
- Slot-map handles are natural numbers that are never reused; their wrap-around after 2^32 reuses of one slot is not modelled.
- Shanghai row processing: which rows become which events, and aggressive references to unknown orders; the Shanghai side appears in the book's policy, the windows and the phases.
- Market-close comparisons, with the band projection, closing-price reconciliation and match tags: the cached comparison is proved for the opening and continuous anchors, and `MarketClose` observations leave those alone.
- The range computation for the closing band and the day's price limits.
- Runtime.BookRuntime.ApplyEvent: the runtime holds its book as an abstract value; that the class in `OrderBook` does the same in place, errors included, is the refinement proved there, not repeated here.
- Candidate.SymbolValidation.Prepare: views are computed from the abstract book of the observed run for the same reason.
- Views.Quantize: computed without the 64-bit wrap-around that a price within half a quantum of the largest integer would meet.
- Views.TopLevels: levels are visited by choosing the best remaining price; the conversion of a level's order count to 64 bits cannot fail and is not modelled.
- Snapshot.Schedule: the observed books come with the observations instead of being kept by the schedule; the market-close snapshots and the file writer are not modelled.
- Replay.SzChannel.ReplayRows: the report counters with their overflow, the trades announced to the closing-price audit, and the market-close and final observations behind the last row are not modelled.
- Spool.SpoolReader.NextRow: after an error the model stands where it stood; the program may have consumed part of the row, and stops.
- ClosePrice.SzClosePriceTracker.Observe: after a failed call nothing is promised, as the program stops; the raw sequence attached to the range base is not modelled.
- Report.BuildReport: the per-field, per-reason, per-tag and per-prefix counters and the final sorting of the records are not modelled; the match rate is the pair of its two counts.
- Phases.Load: the decoded view, load error and previous close stored with a reference are not modelled, only its time.
- Whether inferring a rest from contiguous executions agrees with the exchange: the program calls it a diagnostic, and nothing here certifies it.
- Concurrency between channels: channels share no state and are replayed one by one.
