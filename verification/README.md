# nanolob, modelled and proved

nanolob is a price-time-priority matching engine with hand-made data structures under it, a
lock-free ring in front of it, and a replay that mirrors an exchange's book through it. This project
models these layers and proves what they promise. `dafny verify dfyconfig.toml` checks it.

How the parts fit together:

- **Specification.** `PriceTimeBook` is the meaning of the engine: a book is two flat queues, best
  price first and oldest first within a price; a sweep is a recursive function on a queue, and every
  message is a function from book to book, events and return value (`Step`, `Run`).
- **Two engines.** `IntrusiveBook` and `MatchingEngine` are the optimized engine: nodes with
  `prev`/`next`/`better`/`worse` links, level totals, a price map and an id map, all changed in place
  inside the nested matching loop. `ReferenceEngine` is the naive one, over sorted ladders of queues.
  Each operation and query of both is proved equal to the specification, so `Differential` turns the
  repository's randomized differential test into a theorem for every run and policy.
- **What a message means.** `MessageLaws` says in the message's own fields what each one does to the
  book and reports, why anything is cancelled or refused, and what the queries answer; the sweep has a
  closed form that determines it.
- **Laws of every run.** `BookInvariants` (sorted, positive, unique ids, never crossed),
  `SweepTotals` (how much a sweep fills), `Ledger` and `LedgerLaws` (an auditor who sees only the
  event log and the modifies can replay the whole book; lives end once; quantity is conserved) and
  `Priority` (stamps within a level, every trade with the first in line).
- **Flat hash map.** `FlatHashMap` is the open-addressing table with in-place arrays, linear probing
  and backward-shift deletion; the hash is an arbitrary function. `CanonicalLayout` shows that the
  used slots and the total probe distance depend on the keys alone, `MapHistory` that any history is
  one of a map.
- **Ring.** `SpscRing` is a machine whose acts are the single loads and stores of the two threads,
  with stale loads and half-written slots; the same machine runs on unbounded and on wrapping
  counters (`RingWrap`). `RingFeed` puts the engine behind it.
- **Mirror and replay.** `Mirror` is the pure form, `BookMirror` and `ReplayLoop` the code over a
  real engine. `MirrorLevels`, `MirrorDiffs` and `DiffTheorems` say what a diff does,
  `PhantomTrades` what is left of a mirror that matched, `UpdateCounts` how many updates are counted,
  `MirrorLog` in what order it works, `ReplayVerdict` which diffs are skipped or gaps, `Replay` when the local book is the exchange's, `ReplayTargets` and `ReplayFile` which
  snapshots are checked.
- **Pool, storage, quotes.** `Pool` is the free list threaded through dead objects; `Allocation`
  accounts for the sizes of pools and maps over a run, `Holding` says which slot belongs to which key,
  and `EngineMemory` drives real pools and flat maps by a message stream, so that the accounts and the
  allocation-free bound are theirs. `QuoteSim` and `QuoteRuns` cover the virtual quotes,
  with doubles as reals, `QuoteFifo` a quote under any mix of trades and growth, `QuoteQueue` a real order
  in the book, `QuoteFeed` the two side by side, the quote fed by the exchange's own run without the
  order, and `QuoteBounds` the same with cancellations; `Shares` has the arithmetic of proration.

Where the code and its documentation differ, the model follows the code:

- The replay's header asks for `U == prev_u + 1`; the code reports a gap and applies the diff all the
  same. `Replay.GapIff` says exactly what such a diff is worth, `Replay.GapGoesWrong` shows one that does harm.
- `apply_diff` reads as last-write-wins. With one price listed twice on a side the greatest quantity
  wins, because lower ones are taken as reductions and applied first (`DiffTheorems.LastWriteWinsIff`, `DiffTheorems.LastWriteLoses`).
- `levels_applied` is not a count of updates: a reduction is seen by both passes (`UpdateCounts.DistinctCounts`).
- A phantom match does more than report a trade: the id of the eaten level stays behind, and the level
  is missing until the exchange sends a zero for it (`PhantomTrades.DeadThroughDiff`).
- The quote simulator says that any excess over the queue ahead fills the quote; a fraction of a unit
  is truncated, and a fill of zero is recorded (`QuoteSim.ZeroFillIff`).
- It also says that it stands for an order at the back of the level. Its prints are of a book without that
  order, so an aggressor that wants more than the level shows fills the order and not the quote
  (`QuoteFeeds.QuoteAgreesIff`, `QuoteFeeds.OutrunFills`).
- `try_push` is said to return false if the ring is full; with a stale load of the other side's counter
  it does so on a ring that is not (`SpscRings.StaleLoadReportsFull`), and the ring is the exact bounded
  queue just when no refusal rests on such a load (`SpscRings.Linearizable`).
- A refused `insert` leaves the map as it was, but may have doubled the table first.

## Model

| member | source | states |
|---|---|---|
| MatchingEngines.MatchingEngine.constructor | include/nanolob/engine.hpp:49-54 | a new engine is well linked, owns fresh objects, holds the empty book and has emitted nothing |
| MatchingEngines.MatchingEngine.AddLimit | include/nanolob/engine.hpp:58-70 | return value, whole event log and book are those of the specification for accept, sweep, IOC cancel and rest; every link, map and total is in order again |
| MatchingEngines.MatchingEngine.AddMarket | include/nanolob/engine.hpp:72-78 | the same for a market order: it sweeps at any price and its remainder is cancelled |
| MatchingEngines.MatchingEngine.CancelById | include/nanolob/engine.hpp:80-89 | the same for a cancel: unlinks exactly that order, or rejects an unknown id |
| MatchingEngines.MatchingEngine.ModifyById | include/nanolob/engine.hpp:93-120 | the same for a modify: zero cancels, a reduction at the same price keeps the place, anything else is cancel/replace without an accept |
| MatchingEngines.MatchingEngine.Apply | include/nanolob/feed.hpp:41-57 | every message does to the engine what one specification step does to the book, for every policy |
| MatchingEngines.MatchingEngine.MatchIncoming | include/nanolob/engine.hpp:156-195 | the nested loops terminate and compute the recursive sweep of the flattened opposite queue, events included, for every policy |
| MatchingEngines.MatchingEngine.MatchLevel | include/nanolob/engine.hpp:163-191 | the inner loop is a part of that sweep, and leaves every structure in order although it may have freed the level it walked |
| MatchingEngines.MatchingEngine.MatchFront | include/nanolob/engine.hpp:165-190 | one pass of the inner loop: kill the taker, pull the maker, or fill; the next node is the new front of the same level |
| MatchingEngines.MatchingEngine.RestOrder | include/nanolob/engine.hpp:197-208 | the remainder lands behind everything at its price or better, and its id is in the map |
| MatchingEngines.MatchingEngine.RemoveResting | include/nanolob/engine.hpp:210-214 | exactly that order leaves the queue and the map, and only that side is touched |
| MatchingEngines.MatchingEngine.Reduce | include/nanolob/engine.hpp:105-109 | an in-place reduction changes one quantity and no position |
| MatchingEngines.MatchingEngine.ValidateNew | include/nanolob/engine.hpp:137-147 | zero quantity and live duplicates are rejected, in that order, and nothing else is |
| MatchingEngines.MatchingEngine.BestOf | include/nanolob/book.hpp:167-168 | the answer is the price of the first level and the sum of the remainders of its orders, and the touch of the flattened queue |
| MatchingEngines.MatchingEngine.DepthAt | include/nanolob/book.hpp:171-174 | the level map answers with the total quantity of all orders at the price, zero if none |
| MatchingEngines.MatchingEngine.OpenQtyOf | include/nanolob/engine.hpp:131-134 | the id map answers with the remainder of the live order, zero if unknown |
| MatchingEngines.MatchingEngine.OpenOrderCount | include/nanolob/engine.hpp:128 | the size of the id map is the number of resting orders |
| IntrusiveBook.BookSide.GetOrCreateLevel | include/nanolob/book.hpp:82-100 | an existing level is returned unchanged, a new one is linked in at its place; the queue reads the same |
| IntrusiveBook.BookSide.FindSpot | include/nanolob/book.hpp:91-92 | the walk stops at the last level better than the price |
| IntrusiveBook.BookSide.PushOrder | include/nanolob/book.hpp:103-115 | appending at the level is insertion behind equal and better prices in the flattened queue |
| IntrusiveBook.BookSide.RemoveOrder | include/nanolob/book.hpp:119-134 | unlinking removes exactly that order from the flattened queue, with its level if it was the last |
| IntrusiveBook.BookSide.RemoveLevel | include/nanolob/book.hpp:136-143 | an emptied level leaves list and map, and the rest stays linked both ways |
| IntrusiveBook.BookSide.ReduceOrder | include/nanolob/engine.hpp:179-182 | a fill lowers the order and its level total together |
| MatchingEngines.MatchingEngine.LevelAgrees | include/nanolob/book.hpp:82-145 | in every valid state each level is linked both ways at its place from best to worst, is not empty, is found by its price, and its total is the quantity resting at its price |
| MatchingEngines.MatchingEngine.OrderAgrees | include/nanolob/book.hpp:103-134 | each order is linked both ways in its level, carries its level, side and price, and is found by its id |
| MatchingEngines.MatchingEngine.MapsAgree | include/nanolob/engine.hpp:208-214 | the id map and the price maps hold nothing else |
| ReferenceEngines.ReferenceEngine.Match | include/nanolob/testing/reference_engine.hpp:157-205 | the loops over sorted maps of queues compute the same sweep |
| ReferenceEngines.ReferenceEngine.Rest | include/nanolob/testing/reference_engine.hpp:207-211 | filing by price and push_back are the same insertion |
| ReferenceEngines.ReferenceEngine.Unrest | include/nanolob/testing/reference_engine.hpp:213-230 | scan and erase are the same removal, and empty entries disappear |
| ReferenceEngines.ReferenceEngine.AddLimit | include/nanolob/testing/reference_engine.hpp:26-38 | return value, log and book of the specification |
| ReferenceEngines.ReferenceEngine.AddMarket | include/nanolob/testing/reference_engine.hpp:40-46 | return value, log and book of the specification |
| ReferenceEngines.ReferenceEngine.CancelById | include/nanolob/testing/reference_engine.hpp:48-57 | return value, log and book of the specification |
| ReferenceEngines.ReferenceEngine.ModifyById | include/nanolob/testing/reference_engine.hpp:59-82 | return value, log and book of the specification |
| ReferenceEngines.ReferenceEngine.BestOf | include/nanolob/testing/reference_engine.hpp:94-101 | price of the first entry with the summed quantity of its queue, and the touch of the flattened queue |
| ReferenceEngines.ReferenceEngine.DepthAt | include/nanolob/testing/reference_engine.hpp:103-110 | summed quantity at a price |
| ReferenceEngines.ReferenceEngine.OpenQtyOf | include/nanolob/testing/reference_engine.hpp:88-92 | remainder of a live id, zero if unknown |
| Differential.CrossCheck | tests/test_differential.cpp:103-128 | two engines with one book give the same best, depth, open quantity and count |
| Differential.RunDifferential | tests/test_differential.cpp:27-130 | for every policy, stream and choice of probes, no comparison of the two engines ever fails, and the common log is that of the specification |
| BookInvariants.StepGood | include/nanolob/engine.hpp:58-120 | every message keeps both sides sorted, positive, with unique ids, and the book uncrossed |
| BookInvariants.RunGood | include/nanolob/engine.hpp:58-120 | so does every stream |
| BookInvariants.NeverCrossed | include/nanolob/engine.hpp:62-68 | after any run of any policy the best bid is strictly below the best ask |
| BookInvariants.SweepShape | include/nanolob/engine.hpp:160-162 | a sweep consumes a prefix of crossing orders, all but the last fully, and stops with units left only where nothing more crosses |
| BookInvariants.RunPrefix | include/nanolob/engine.hpp:58-120 | the log of a stream begins with the log of each of its prefixes |
| MessageLaws.SweepIff | include/nanolob/engine.hpp:156-195 | an outcome is that of the sweep if and only if it has the closed form: orders gone whole from the front, within the limit, each met with units left, each traded at its own price or pulled as the taker's own, and then the end for want of units, of orders or of a price, a partial fill, or the kill |
| MessageLaws.AddRefused | include/nanolob/engine.hpp:137-147 | a refused add changes nothing and says why, the empty quantity before the duplicate id |
| MessageLaws.LimitEntered | include/nanolob/engine.hpp:58-70 | an accepted limit order reports its own side, price and quantity and the closed-form sweep; what is left of an IOC is cancelled for that reason, of a GTC joins last at its price, for the participant that sent it; else its side is untouched |
| MessageLaws.MarketEntered | include/nanolob/engine.hpp:72-78 | a market order reports price 0 and the sweep at any price, cancels what is left for that reason, and rests nothing |
| MessageLaws.UnknownRefused | include/nanolob/engine.hpp:80-98 | a cancel or modify of an id that is not live changes nothing and says so |
| MessageLaws.TakenOut | include/nanolob/engine.hpp:80-104 | a cancel, or a modify to nothing, takes exactly that order out and reports its user as the reason |
| MessageLaws.ModifiedInPlace | include/nanolob/engine.hpp:105-110 | a modify to no more units at the same price changes that quantity and nothing else, and reports nothing |
| MessageLaws.ModifiedAnew | include/nanolob/engine.hpp:111-119 | any other modify takes the order out and sweeps the other side at the new price for the new quantity; what is left joins last at that price, on the same side and for the same participant; only the sweep is reported |
| MessageLaws.ModifiedFills | include/nanolob/engine.hpp:111-119 | with self-trades allowed it fills the lesser of the new quantity and what the new price reaches |
| MessageLaws.ModifiedStands | include/nanolob/engine.hpp:93-120 | an order that still rests after a modify is on its side, at the new price, for its participant, with no more units |
| MessageLaws.RepricedTrades | tests/test_engine.cpp:267-277 | a bid moved to the price of an ask trades there and empties the book |
| MessageLaws.CancelledIff | include/nanolob/engine.hpp:58-195 | an id is reported cancelled for a reason if and only if the message warrants just that: the user of a live id, units left of an IOC or of a market order, or a self-trade prevented under the policy |
| MessageLaws.RunCancelledIff | include/nanolob/engine.hpp:58-195 | so over every run from the empty book |
| MessageLaws.RunTradesRightful | include/nanolob/engine.hpp:149-195 | every trade of every run is of its message's taker with an order that stood on the other side, at its price, within the limit, and not with its own participant unless that is allowed |
| MessageLaws.TouchIff | include/nanolob/book.hpp:167-168 | the touch of a sorted side is nothing only of an empty one; else it is a listed price that none listed betters, with the total of exactly the orders at it |
| MessageLaws.DepthIsTotal | include/nanolob/book.hpp:171-174 | the depth at a price is the total of exactly the orders at it |
| MessageLaws.OpenQtyIff | include/nanolob/engine.hpp:131-134 | the open quantity of an id is that of the order that has it, on either side, and zero if none has |
| MessageLaws.OpenOrdersAre | include/nanolob/engine.hpp:128 | the number of open orders is the number of live ids |
| SweepTotals.FilledAllow | include/nanolob/engine.hpp:156-195 | without self-trade prevention the total fill is the lesser of the quantity and the crossing depth |
| SweepTotals.FilledCancelResting | include/nanolob/engine.hpp:174-178 | pulling own resting orders, it is the lesser of the quantity and the crossing depth not owned by the taker |
| SweepTotals.FilledCancelIncoming | include/nanolob/engine.hpp:170-173 | killing the taker, it is the lesser of the quantity and the crossing depth before the first own order, and the kill is reported exactly when that order is met |
| Ledgers.StepPosts | include/nanolob/engine.hpp:58-120 | an auditor that sees only events and modifies finds each step legal and ends with exactly the resting orders and quantities |
| Ledgers.RunPosts | include/nanolob/engine.hpp:58-120 | over any run from the empty book the log is legal and the auditor's ledger is the book |
| LedgerLaws.LivesEndOnce | include/nanolob/engine.hpp:58-120 | in a legal log accepts of an id equal its cancels plus complete fills, plus one if it is still open |
| LedgerLaws.RunLivesEndOnce | include/nanolob/engine.hpp:58-120 | so in every run each accepted life of an id ends exactly once, by one cancel or by being filled, and the id is live otherwise |
| LedgerLaws.RunNamesOpenOrders | include/nanolob/engine.hpp:58-120 | no event but a reject names an id that is not open, and an accept names one that is not |
| LedgerLaws.RunLogIsHeard | include/nanolob/engine.hpp:58-120 | the audited log without the modifies is the event log of the run |
| LedgerLaws.Conservation | include/nanolob/engine.hpp:156-195 | in a legal log what was open, accepted and amended equals twice what traded plus what was killed plus what is open |
| LedgerLaws.RunConserves | include/nanolob/engine.hpp:58-120 | so in every run accepted plus amended quantity equals twice traded plus killed by each kind of cancel plus resting |
| Priority.RunOrdered | include/nanolob/book.hpp:103-115 | stamping each order when it is last queued, every level is strictly increasing in stamp after every run; a reduction keeps the stamp |
| Priority.SweepHitsFirst | include/nanolob/engine.hpp:160-189 | within one sweep every trade hits the front of the queue as it stands at that instant |
| Priority.StepFair | include/nanolob/engine.hpp:58-120 | every trade of a step is with the best-priced, earliest-stamped live order of the other side, at that order's price |
| Priority.RunFair | include/nanolob/engine.hpp:58-120 | and so is every trade of every run |
| FlatHashMaps.FlatHashMap.constructor | include/nanolob/flat_hash_map.hpp:27-32 | an empty table whose capacity is a power of two that suffices |
| FlatHashMaps.FlatHashMap.Probe | include/nanolob/flat_hash_map.hpp:55-60 | the probe loop ends at the key if it is stored and otherwise at an empty slot, for any hash function |
| FlatHashMaps.FlatHashMap.Find | include/nanolob/flat_hash_map.hpp:54-61 | the stored value, or nothing, of the mathematical map |
| FlatHashMaps.FlatHashMap.Insert | include/nanolob/flat_hash_map.hpp:39-50 | adds a new key, refuses a present one leaving the map as it was, and doubles the capacity exactly when the load would pass one half, even if it then refuses; the recursion through rehash is one level deep |
| FlatHashMaps.FlatHashMap.Rehash | include/nanolob/flat_hash_map.hpp:136-145 | the same map at the new capacity in new arrays |
| FlatHashMaps.FlatHashMap.Reserve | include/nanolob/flat_hash_map.hpp:34-36 | room for the given number of keys, reallocating only when it is missing |
| FlatHashMaps.FlatHashMap.Erase | include/nanolob/flat_hash_map.hpp:67-93 | removes exactly the given key; every other key keeps its value and can still be reached |
| FlatHashMaps.FlatHashMap.CloseHole | include/nanolob/flat_hash_map.hpp:77-91 | the backward-shift loop, with wrap-around, restores the probe-chain invariant |
| FlatHashMaps.MoveTest | include/nanolob/flat_hash_map.hpp:82-86 | the masked comparison decides whether the hole lies on the probe path of the key |
| FlatHashMaps.ShiftMoves | include/nanolob/flat_hash_map.hpp:86-89 | a key whose path contains the hole moves into it and its slot is the new hole |
| FlatHashMaps.ShiftSkips | include/nanolob/flat_hash_map.hpp:83-86 | a key whose path does not contain the hole stays, and the invariant of the loop with it |
| FlatHashMaps.HomeIsHash | include/nanolob/flat_hash_map.hpp:126-128 | the home slot of a key is its hash, but for whole turns around the table |
| CanonicalLayouts.SameLayout | include/nanolob/flat_hash_map.hpp:14-18 | two tables of one capacity with the same keys occupy the same slots at the same total probe distance |
| CanonicalLayouts.NoResidue | include/nanolob/flat_hash_map.hpp:67-93 | so deletions leave nothing behind: a map looks like one that never held the deleted keys |
| MapHistories.RunMap | include/nanolob/flat_hash_map.hpp:39-93 | over any history of insert, erase and find the answers are those of a mathematical map |
| MapHistories.CompareHistories | include/nanolob/flat_hash_map.hpp:67-93 | two histories that leave the same keys leave tables which, at one capacity, use the same slots at the same total probe distance |
| SpscRings.RingDelivers | include/nanolob/spsc_ring.hpp:39-60 | under every interleaving and every stale load the counters stay ordered, what is popped is a prefix of what was pushed, and the live slots hold the rest |
| SpscRings.NoRace | include/nanolob/spsc_ring.hpp:45-57 | a slot is written only after its release was seen, read only after its write was seen, and never both at once |
| SpscRings.Linearizable | include/nanolob/spsc_ring.hpp:39-60 | the calls of every schedule, in order of completion, are a run of an atomic bounded queue that may refuse needlessly; they are one of the queue that does not if and only if every refusal rests on a current load, stale loads elsewhere doing no harm |
| SpscRings.TakesEffect | include/nanolob/spsc_ring.hpp:39-60 | each call acts on that queue at one of its own loads or stores: success at the publishing store, failure at the load; on the queue that never refuses needlessly a failing act is allowed exactly when its load is current |
| SpscRings.StaleLoadReportsFull | include/nanolob/spsc_ring.hpp:41-44 | a needless refusal does happen: with a stale load a push fails on an empty ring |
| SpscRings.SpscRing.TryPush | include/nanolob/spsc_ring.hpp:39-48 | uninterrupted, the code performs exactly the acts of the machine and appends unless full |
| SpscRings.SpscRing.TryPop | include/nanolob/spsc_ring.hpp:51-60 | uninterrupted, the code performs exactly the acts of the machine and takes the front unless empty |
| RingWraps.PlayUnwraps | include/nanolob/spsc_ring.hpp:30 | every schedule of a ring whose counters wrap is one of a ring whose counters do not, with the same answers and with current refusals for current ones |
| RingWraps.PlayWraps | include/nanolob/spsc_ring.hpp:30 | and conversely |
| RingWraps.WrappingDelivers | include/nanolob/spsc_ring.hpp:40-58 | so wrapping counters lose, repeat and reorder nothing, for any two powers of two with the capacity below the width |
| RingWraps.WrappingLinearizable | include/nanolob/spsc_ring.hpp:40-58 | and the same equivalence holds: a run of the exact bounded queue if and only if every refusal rests on a current load |
| RingFeeds.FedEngine | include/nanolob/feed.hpp:41-57 | an engine fed through the ring emits a prefix of the events of the producer's stream, and all of them once all messages are popped |
| BookMirrors.BookMirror.IsReduction | replay/book_mirror.hpp:63-67 | tracked and below the open quantity of the tracking order |
| BookMirrors.BookMirror.ApplyLevel | replay/book_mirror.hpp:69-86 | the order operations of one level update, on the real engine, are those of the pure mirror |
| BookMirrors.BookMirror.ApplyDiff | replay/book_mirror.hpp:39-54 | four passes, each deciding what is a reduction when its turn comes |
| BookMirrors.BookMirror.ApplySnapshot | replay/book_mirror.hpp:34-37 | bids and then asks, one update at a time |
| MirrorLevels.LevelExact | replay/book_mirror.hpp:69-86 | a removal, a reduction, or a raise where nothing crosses changes one price to the given quantity, without a trade, and keeps one order per tracked level |
| DiffTheorems.DiffOverrides | replay/book_mirror.hpp:39-54 | a diff with an uncrossed end state, repeated prices included, turns the book into the old one overridden by the diff, with no trade, under every policy |
| DiffTheorems.TakesEffectIff | replay/book_mirror.hpp:39-54 | the book becomes the override exactly when the override is uncrossed |
| DiffTheorems.TradesIffCrossed | replay/book_mirror.hpp:12-18 | with self-trades allowed a trade is reported exactly when the override is crossed |
| DiffTheorems.LastWriteWinsIff | replay/book_mirror.hpp:39-54 | in the book apply_diff leaves, the last update of a price has won exactly when no update of that price asks for more than the last |
| DiffTheorems.DistinctLastWriteWins | replay/book_mirror.hpp:39-54 | so it always has when the prices of the side are distinct |
| DiffTheorems.LastWriteLoses | replay/book_mirror.hpp:39-54 | and it need not: 5 and then 3 at one price of an empty book end as 5 |
| DiffTheorems.Idempotent | replay/book_mirror.hpp:39-54 | applying such a diff again changes no order, id or event |
| UpdateCounts.DiffCounts | replay/book_mirror.hpp:39-54 | of any diff, crossing ones included, levels_applied counts every update that is a reduction at its turn in the first pass, at least those that are none by the listed quantities in the second, and none twice there |
| UpdateCounts.UncrossedCounts | replay/book_mirror.hpp:39-54 | and exactly those when the end state does not cross |
| UpdateCounts.RisesAllIff | replay/book_mirror.hpp:39-54 | the two bounds meet exactly if no update asks for less than an earlier one of its price |
| UpdateCounts.AscendingCounts | replay/book_mirror.hpp:39-54 | so then, whatever crosses, every update is counted once and twice if it is a reduction at its turn in the first pass |
| UpdateCounts.DistinctCounts | replay/book_mirror.hpp:39-54 | with distinct prices, whatever crosses, a reduction is counted twice and every other update once |
| UpdateCounts.CrossingCountsMore | replay/book_mirror.hpp:39-54 | two bids at the price of one ask, five units and then three: both are counted by the second pass, as the first is eaten |
| MirrorLogs.DiffInOrder | replay/book_mirror.hpp:39-54 | the log of a diff, crossing ones included, is four parts in this order: removals of tracked bids, removals of tracked asks, then accepts and trades for the bids, then for the asks |
| MirrorLogs.SnapshotInOrder | replay/book_mirror.hpp:34-37 | a snapshot enters its bids and then its asks |
| MirrorLogs.FollowMine | replay/book_mirror.hpp:75-88 | after a snapshot and any stream of diffs every order of the mirrored book is of participant 0xFEED |
| PhantomTrades.LevelLoose | replay/book_mirror.hpp:69-86 | whatever an update matches, the book stays good, each tracked order that still rests is at its price, and no price but its own shows more |
| PhantomTrades.LevelInOrderIff | replay/book_mirror.hpp:69-86 | an update leaves every tracked level resting exactly when it trades nothing |
| PhantomTrades.DeadUpdate | replay/book_mirror.hpp:74-85 | an update of a tracked level that was eaten is a rejected modify or cancel: no order changes, and only a zero untracks the price |
| PhantomTrades.DeadThroughDiff | replay/book_mirror.hpp:39-54 | so an eaten level stays missing through every diff that has no zero for it |
| PhantomTrades.DiffInOrderIff | replay/book_mirror.hpp:39-54 | a diff with distinct prices leaves every tracked level resting exactly when its end state is uncrossed |
| ReplayVerdicts.VerdictIff | replay/replay_binance.cpp:68-81 | after any stream the next diff is skipped if and only if it ends no later than what was applied, and a gap if and only if it ends later and its first id is not the successor, once some diff was applied, or lies beyond the successor of the snapshot, before |
| ReplayVerdicts.OverlapIsGap | replay/replay_binance.cpp:70-77 | a diff that overlaps an applied one is a gap, and one that overlaps the snapshot is not |
| Replay.SeedInSync | replay/replay_binance.cpp:58-64 | a full snapshot seeds the exchange's book at its update id |
| Replay.ReceiveInSync | replay/replay_binance.cpp:68-81 | a diff that is stale, straddles the snapshot or continues the sequence keeps the book equal to the exchange's |
| Replay.FollowInSync | replay/replay_binance.cpp:58-81 | after any stream in which no gap was reported the book is the exchange's at the last update id, and no match was ever reported |
| Replay.CompleteHasNoGap | replay/replay_binance.cpp:68-81 | a stream without holes that starts no later than just after the snapshot is never reported as gapped |
| Replay.CompleteInSync | replay/replay_binance.cpp:58-81 | so over such a stream the book is the exchange's after every batch |
| Replay.NothingMissedInSync | replay/replay_binance.cpp:68-81 | whatever its first id, a diff outside which nothing changed since the last id applied brings the book up to date, so that later diffs keep it so |
| Replay.GapIff | replay/replay_binance.cpp:73-79 | a diff with distinct prices, applied after a gap, phantom matches included, yields the exchange's book exactly when every price that changed since the last id applied is in the diff |
| Replay.UncrossedGapIff | replay/replay_binance.cpp:73-79 | the same with repeated prices, if the end state of the diff does not cross |
| Replay.GapGoesWrong | replay/replay_binance.cpp:73-79 | a gap diff that is reported, applied, matches a bid that is no more and leaves a wrong book |
| Replay.RepeatHidesGap | replay/replay_binance.cpp:73-79 | a crossing gap diff with a repeated price that leaves the exchange's book although it missed a change |
| ReplayTargets.TargetsAccounted | replay/replay_binance.cpp:232-253 | each later snapshot is compared exactly when an applied diff ends at its id, counted unreachable when passed over, and left when not reached |
| ReplayTargets.EveryCheckPasses | replay/replay_binance.cpp:236-239 | with no gap no comparison finds a mismatch, and each passes exactly when its snapshot lists a level |
| ReplayTargets.PassesIff | replay/replay_binance.cpp:103-109 | a comparison without mismatches passes exactly when there is a level to compare |
| ReplayLoops.MirroredBook.Seed | replay/replay_binance.cpp:58-64 | new engine and mirror, filled from the snapshot |
| ReplayLoops.MirroredBook.Apply | replay/replay_binance.cpp:68-81 | verdict and state of the sequencing rules; a gap is reported and the diff applied all the same |
| ReplayLoops.ReplayLoop.Settle | replay/replay_binance.cpp:234-246 | the loop over the targets retires exactly those that are due |
| ReplayFiles.PrescanIs | replay/replay_binance.cpp:196-205 | the pre-scan collects just the snapshots that are the first of their update id in the file, in ascending order of it |
| ReplayFiles.ReplayFile | replay/replay_binance.cpp:200-252 | the loop over a file: pre-scan, seed from the first snapshot, then diffs with the targets that fall due |
| ReplayFiles.CaptureValidates | replay/replay_binance.cpp:214-252 | for a gap-free capture with its snapshots anywhere among the diffs no comparison finds a mismatch, each passes unless its snapshot is of an empty book, and the snapshots compared are exactly those, but the seed's, at whose id an applied diff ends; every other listed id is counted once as compared, passed over or left |
| Pools.Pool.AddSlab | include/nanolob/pool.hpp:68-80 | a slab threaded back to front is handed out in ascending order, before older free slots |
| Pools.Pool.Reserve | include/nanolob/pool.hpp:35-37 | at least that many slots, by whole slabs, and no live slot moves |
| Pools.Pool.Alloc | include/nanolob/pool.hpp:40-46 | hands out a slot that was not live, the one freed last if any, and grows exactly when all slots are live |
| Pools.Pool.Dealloc | include/nanolob/pool.hpp:48-54 | takes a live slot back at the head of the free list |
| Pools.Pool.Write | include/nanolob/pool.hpp:10-13 | what a client writes to a live object never reaches the free list |
| Pools.Pool.Partition | include/nanolob/pool.hpp:56-57 | live and free slots partition the capacity and the counter counts the live ones |
| EngineMemories.EngineMemory.constructor | include/nanolob/engine.hpp:49-54 | pools and maps of the sizes that the constructor reserves, holding nothing: whole slabs for the expected orders, one slab of 4096 levels, the next power of two for twice the orders, and 1024 slots a price map |
| EngineMemories.EngineMemory.Store | include/nanolob/engine.hpp:197-208 | resting an order takes a slot, an id and, for a new price, a level, so that exactly the orders and levels of the new book are held, each live slot under one key; every pool and map grows exactly when accounted |
| EngineMemories.EngineMemory.Release | include/nanolob/engine.hpp:210-214 | removing an order gives back its id and slot, and the level and its price when that empties the price: exactly the smaller book is held, and nothing grows |
| EngineMemories.EngineMemory.SweepBook | include/nanolob/engine.hpp:156-195 | a sweep gives back what it fills or pulls and grows nothing |
| EngineMemories.EngineMemory.Handle | include/nanolob/engine.hpp:58-120 | one message: what is held is the book after the specification step, and the sizes moved as accounted |
| EngineMemories.EngineMemory.Drive | include/nanolob/engine.hpp:58-120 | a stream: what is held is the book of the run, the sizes are those accounted, and they are the initial ones while the books keep within what was reserved |
| EngineMemories.RunStorage | include/nanolob/engine.hpp:49-54 | a new engine's pools and maps, driven by any stream that keeps within the expected orders and 512 levels a side, end as long as the constructor made them |
| Holdings.StoredHolds | include/nanolob/engine.hpp:197-208 | storing keeps each live slot under exactly one id or price and matches the book with the order |
| Holdings.ReleasedHolds | include/nanolob/engine.hpp:210-214 | releasing does so for the book without the order, level included |
| Holdings.HoldsCounts | include/nanolob/engine.hpp:128 | ids, order slots and level slots number the orders and levels of the book |
| Allocations.RunAllocatesNothing | include/nanolob/engine.hpp:49-54 | the accounted sizes do not change in any run that keeps within the expected orders and 512 levels a side |
| Allocations.LevelBoundSharp | include/nanolob/book.hpp:157-158 | the default level map grows with the 513th level of a side |
| QuoteSim.QuoteSimulator.OnTrade | strategy/quote_sim.hpp:77-83 | one side is reached; fills and remainder make up what there was, and each fill has the time of the print, its mid and the wait since placement |
| QuoteSim.QuoteSimulator.OnLevelUpdate | strategy/quote_sim.hpp:86-96 | prorated shrinking or growth behind; the queue ahead never grows |
| QuoteSim.QuoteSimulator.OnCross | strategy/quote_sim.hpp:99-103 | an open quote is filled in full, with the time of the cross, its mid and the wait since placement |
| QuoteSim.ShrinkBounds | strategy/quote_sim.hpp:90-94 | proration lies between "all cancels ahead" and "all cancels behind", and within what is left of the level |
| QuoteSim.ProrationKeepsShare | strategy/quote_sim.hpp:90-94 | the queue ahead is the same share of what is left of the level as it was of the level |
| QuoteRuns.FillsIff | strategy/quote_sim.hpp:111-139 | an event fills an open quote just if it crosses it, prints through it, or prints more at its price than is ahead, and then once: in full or by the whole units in excess, with the event's time and mid and the wait |
| QuoteRuns.InactiveStays | strategy/quote_sim.hpp:75-103 | a quote that was withdrawn or filled takes no notice of anything |
| QuoteRuns.BetterPrintPasses | strategy/quote_sim.hpp:111-117 | a print at a better price changes nothing |
| QuoteSim.ZeroFillIff | strategy/quote_sim.hpp:122-132 | a print makes a fill of zero exactly when it clears the queue ahead by a fraction of a unit |
| QuoteSim.ZeroFillHappens | strategy/quote_sim.hpp:122-132 | a history in which it does |
| QuoteRuns.RunSound | strategy/quote_sim.hpp:58-139 | over any run the queue ahead stays within the level and never grows, nothing of the quote is lost, and every fill stems from a print or cross of the run, with its time, its mid and the wait since placement |
| QuoteRuns.Sandwich | strategy/quote_sim.hpp:15-18 | over any run the prorated quote's fills and queue lie between those of the two extremes |
| QuoteBounds.RealOrderBetween | strategy/quote_sim.hpp:15-18 | a real order in a whole book, under any flow of trades, newcomers and cancels ahead of it, behind it or elsewhere that does not outrun the level, is filled no less than the quote that takes all cancels to be behind and, if the level is shown after every message, no more than the one that takes them to be ahead |
| QuoteBounds.GrowthHidesCancel | strategy/quote_sim.hpp:86-96 | a level shown after several messages can hide a cancel behind growth: the order is filled and every quote still waits |
| QuoteQueue.RealFills | include/nanolob/engine.hpp:58-191 | a real order behind L units in a whole book, after any stream of aggressors and newcomers at its price, has filled min(size, max(0, V - L)) of the V units traded, in one fill per aggressor that reached it, and has the rest open |
| QuoteFifos.FifoShare | strategy/quote_sim.hpp:58-139 | over any mix of trades at the price, of any size, and growth-only level updates, shown after any number of trades, and for any rule about cancels, the fills are trade by trade those of an order of its size behind L units: in all min(size, max(0, V - L)) of the V units traded, with the rest open and what is left of L ahead of it |
| QuoteFifos.ToldWholeIsRealOrder | strategy/quote_sim.hpp:10-11 | so a quote told of every trade at its price is filled fill for fill as a real order in a whole book is |
| QuoteFifos.ExcessFills | tests/test_strategy.cpp:21-39 | 500 ahead: a trade of 300 fills nothing, and one of 250 fills 50, recorded with its time, mid and wait |
| QuoteFeeds.QuoteAgreesIff | strategy/quote_sim.hpp:10-19 | a quote fed what the exchange prints and, after any choice of the messages, the level it shows without the order, with no cancellations, is filled message by message as the real order is if and only if no aggressor outruns the level to harm, a condition on the flow and the levels alone; then the same is left of both and no fill is of zero |
| QuoteFeeds.QuoteIsRealOrder | strategy/quote_sim.hpp:111-133 | in particular if no aggressor wants more than the level shows |
| QuoteFeeds.OutrunFills | strategy/quote_sim.hpp:111-133 | one aggressor that wants more fills the order by what is beyond the units ahead, and the quote not at all, or in full if worse prices trade |

## Left out

- Integer widths: quantities, totals and ids are unbounded naturals and prices unbounded integers; only the ring's counters wrap.
- `compare_to_snapshot`: compares a common prefix of at most 400 levels; the model's comparison is of every level. Reporting, its counters of diffs applied, skipped and gapped (which are those of the verdicts), timing and parsing of the file are not modelled; the code adds the targets left at the end to its unreachable count.
- `binance_parser.hpp`, capture and plot scripts, `strategies.hpp` and `mm_sim.cpp`: parsing, statistics and floating-point functions; snapshots, diffs and trade prints are inputs here.
- The constants of `mix`: the hash is any function, so dispersion is not spoken of.
- `SpscRing::size_approx`, cache-line alignment and the C++ memory model beyond stale acquire loads and publication order.
- Raw storage in the pool: a slot is an index, its contents one word; constructors, destructors and alignment are not modelled, and a slab has at least one slot.
- MatchingEngines.MatchingEngine.Apply: nodes come from `new` and the id and price maps are Dafny maps, so the engine uses pools and flat maps through their contracts only; `EngineMemories.EngineMemory.Handle` is the storage under the same messages, kept beside the engine's nodes rather than inside them.
- IntrusiveBook.BookSide.RemoveLevel: a freed level is dropped from the side; its return to the pool is `EngineMemories.EngineMemory.Release`.
- ReferenceEngines.ReferenceEngine.Match: the sorted maps are sorted sequences, so their lookup is by position; both sides go through one body where the source repeats it.
- Replay.GapIff: for a diff that repeats a price and crosses only the one direction `Replay.NothingMissedInSync` is proved; `Replay.RepeatHidesGap` is why the other fails.
- UpdateCounts.DiffCounts: for a diff that repeats a price and crosses it is a pair of bounds, which meet unless it asks for less than before at some price (`UpdateCounts.RisesAllIff`); in between, how much the matches take decides, and `UpdateCounts.CrossingCountsMore` attains the upper one.
- QuoteQueue.RealFills: flows at the price of the order, of aggressors and newcomers, without cancellations and without self-trade prevention; `QuoteFeeds.QuoteAgreesIff` has the same flows.
- QuoteBounds.RealOrderBetween: the same flows with cancels; a reduction in place is not among them, and the upper bound needs the level after every message, which `QuoteBounds.GrowthHidesCancel` shows.
- QuoteSim.QuoteSimulator.OnTrade: doubles are reals, so rounding of the queue position is not modelled.
- Handler templates and the `IdMap` parameter: the handler is the sequence of events it receives.
- Benchmarks and workload generation.
