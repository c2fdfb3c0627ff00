# A verified model of the RapidTrader matching engine

This project models the matching core of RapidTrader in Dafny and proves what its
code keeps in every run. It has three parts.

**The order book with its stop-order cascade.** `Orders`, `Queues` and `BookModel` are
a functional model of `MapOrderBook`: six lists ordered by price and then by arrival, the index by id, the last
traded price, the two trailing markers and the stream of events. Each function takes the
branches of the code it models, in the code's order. `BookInvariants`, `Rekeying`, `Cascade`,
`Accounts`, `Matching` and `Runs` prove what matching, activation and re-keying keep, up to
statements about every run; `Ledgers` keeps each order's account over every run, `Priority` and `TrailPriority` the
order of arrival, `Outcomes`, `StopOrders` and `Changes` tell what becomes of an order in each operation without
the model's own functions, and `Witnesses` has runs from an empty book that reach the failures below.
`Levels`, `LevelMaps`, `Regrouping` and `MapOrderBook` are
the book as the program keeps it, with `Level` objects in price maps, an index whose entries
point at levels, and the loops of the source; every method is proved to take its
fields to the state that represents the model's result.

**The Robin Hood hash table** behind the indices. `RobinHood` has the layout (info bytes,
homes, info bits, cluster order) and what insertion, removal, and halving of the info bytes keep.
`Crowding` tells from the homes of the keys alone when the bytes are full, and `Mixing` is what the table makes of a
hash. `HashTable` is the table on arrays with the source's loops, proved to be a map under any mixing (the constructor
takes the user's hash and installs the code's), and `TableRuns` has runs that meet its limits.

**The concurrent market.** `Markets` is the sequential market; `MarketSteps` is the system
of one client, a queue and a worker for each handler, and a stop flag, in which any sequence of
steps is a run; `BookHandlers` and `ConcurrentMarket` are the objects, whose methods
are the atomic steps and always stand where the run so far leads.

`dafny verify dfyconfig.toml` checks everything.

## What the proofs found

- The level walk in `canMatchOrder` never advances (src/matching/orderbook/map_orderbook.cpp:460-479),
  so a fill-or-kill order is executed in part whenever some level crosses without enough volume behind it.
  The documentation (include/matching/orderbook/order.h:67-68) promises otherwise. `FillOrKillIff` gives the exact
  condition, `FillOrKillTradesFive` a run, `IntendedFillOrKill` the repaired test.
- `setQuantity` subtracts the cancelled amount without clamping (include/matching/orderbook/order.h:566-571): a cancel of more than
  is open wraps around, and the order stays in the book, although the interface promises its removal
  (include/matching/orderbook/orderbook.h:43-51): `CancelTakesTheMinimumIff`, `CancelRemovesIff`, `OverCancelStays`.
  It also stores the cancelled amount as the quantity, so an order that was executed before may fail its own
  debug check (`CancelKeepsValidatesIff`, `CancelAfterTradesFails`).
- `updateAskStopOrders` walks from the lowest level up, as the bid loop does, although the highest ask stop is the first in
  priority: trailing asks of equal trail amount that stood at different prices change places (`RekeyKeepsAskPriorityIff`,
  `AsksChangePlaces`). Trailing bids of equal trail amount keep the order of their arrival in every run (`TrailingBidsFirstCome`).
- The trailing markers are reset on every call, so trailing stops can move back (`AskTrailFallsIff` and `BidTrailRisesIff`,
  with runs in `AskTrailFalls` and `BidTrailRises`); what always holds is the band (`StopsWaitInTheirBand`).
- A rehash that fails half-way has lost pairs (`RehashPowerOfTwo`, include/utils/robin_hood.h:2440-2481). It fails exactly
  when all pairs but the one in the last taken slot crowd in the new table (`LastMoveDecides`, `FullIffCrowded`), so never
  with at most 127 pairs. `EmplaceLosesPairs` is a run of ordinary insertions that loses a pair. Without loss, keys of one
  hash overflow the table at the 128th (`CollidingKeysOverflow`): another multiplier does not part them (`MixedInjective`).
- A task pushed after its worker has left is never executed, and these are the only ones lost: what was pushed between
  the stop and the leaving is still executed (`LeavingDecides`, `LateCallWaits`).

Where code and documentation disagree, the model follows the code.

## Model

| member | source | states |
|---|---|---|
| Runs.RunSteady | src/matching/orderbook/map_orderbook.cpp:524-630 | after any run of public operations from a steady book: every indexed order stands in the one list its kind and side select, in price order; nothing filled, market, immediate-or-cancel or fill-or-kill rests; bids stay below asks; no stop order is left that the price has reached; trailing stops are within their band; replaying the events rebuilds the index |
| Runs.ApplySteady | src/matching/orderbook/map_orderbook.cpp:16-133 | each of the six public operations alone keeps all of that |
| Runs.StopsWaitInTheirBand | src/matching/orderbook/map_orderbook.cpp:564-630 | at every return of every run from an empty book: ask stops below the last price and bid stops above it, trailing stops no further away than their trail amount (saturating at 0 and 2^64-1), and no stop order at all while the last price is 0 |
| Runs.BookIsWhatTheEventsSay | src/matching/orderbook/map_orderbook.cpp:524-562 | at every return of every run from an empty book: uncrossed, nothing filled or of market type rests, and folding the added, updated, executed and deleted events never fails and yields the ids and orders of the index (up to a trailing stop's computed price, which no event carries when it is inserted) |
| Ledgers.AddOrderLedger | src/matching/orderbook/map_orderbook.cpp:16-36 | adding an order with its whole cascade: both sides trade the same total, and open volume afterwards is open volume before plus the order's, less twice the traded total, less what was discarded; the events cut no order back, whichever id one asks about, and add this one alone |
| Ledgers.CancelOrderLedger | src/matching/orderbook/map_orderbook.cpp:71-84 | a cancel with its whole cascade cuts its own order back by exactly the difference the cancel makes and every other order by nothing; what the cascade trades and discards balances |
| Ledgers.OnlyCancelsCutBack | src/matching/orderbook/map_orderbook.cpp:16-133 | each of the six operations, cascade included, order by order: only a cancel cuts an order back, and only its own; only add and replace bring an order in, and only their own |
| Ledgers.OperationKeepsAccounts | src/matching/orderbook/map_orderbook.cpp:16-133 | an order that rests before and after an operation has the same open and executed quantity together, less what a cancel of this very order took off (64-bit sums) |
| Ledgers.OpenPlusExecuted | src/matching/orderbook/map_orderbook.cpp:16-133 | at every return of every run from an empty book, each resting order's open and executed quantity together are what it brought when it was last added, less what cancels of this very order took off since (64-bit sums) |
| Ledgers.EachOrderAccountedFor | src/matching/orderbook/map_orderbook.cpp:16-133 | at every return of every run from an empty book, an id has been added once more than deleted if it rests and as often as deleted if not; it has been fired at most once for each time it was added, and not yet if it still waits as a stop order |
| Ledgers.CascadeFiresOnce | src/matching/orderbook/map_orderbook.cpp:260-340 | a cascade fires each stop order that no longer waits exactly once and no other order, in total as many as the fall in resting stops |
| Priority.FirstComeFirstServed | src/matching/orderbook/level.cpp:23-30 | at every return of every run from an empty book, limit and plain stop orders at one price stand in the order in which they arrived: were last added, or fired to become limit orders |
| Priority.ApplyTimed | src/matching/orderbook/map_orderbook.cpp:16-133 | each of the six operations alone, cascade included, keeps every price of the limit and plain stop maps in order of arrival |
| Priority.RunTimed | src/matching/orderbook/map_orderbook.cpp:16-133 | any run keeps that order, from any steady book that has it |
| TrailPriority.TrailingBidsFirstCome | src/matching/orderbook/map_orderbook.cpp:342-369 | at every return of every run from an empty book, trailing bids of one trail amount stand in the order in which they arrived, at whatever prices; for asks this is false |
| TrailPriority.CascadeKeepsBids | src/matching/orderbook/map_orderbook.cpp:260-398 | through any cascade, whatever the price does in it, that order is kept |
| TrailPriority.CascadeGroup | src/matching/orderbook/map_orderbook.cpp:260-398 | of the trailing bids of one trail amount, a cascade fires the first ones and leaves the rest in their order |
| TrailPriority.ApplyKeepsBids | src/matching/orderbook/map_orderbook.cpp:16-133 | each of the six operations alone, cascade included, keeps that order |
| Runs.ReplaceIsDeleteThenAdd | src/matching/orderbook/map_orderbook.cpp:123-133 | replacing is deleting and submitting anew: the second cascade finds nothing to do |
| Outcomes.MarketOrderTrades | src/matching/orderbook/map_orderbook.cpp:163-168 | a market order trades exactly the smaller of what it wants and all that the opposite list has, at whatever prices; it never rests, the last event deletes it with exactly the rest open, and the opposite list has lost just these lots from its front |
| Outcomes.LimitOrderRests | src/matching/orderbook/map_orderbook.cpp:135-143 | a limit order trades exactly the smaller of what it wants and what is on offer at prices it accepts, at such prices only; it rests exactly when it is good till cancelled and the offer is less than it wants, with exactly the rest open and its terms unchanged, and otherwise the last event deletes it with the rest |
| Outcomes.SubmitServes | src/matching/orderbook/map_orderbook.cpp:16-36 | the whole outcome of submitting a limit or market order, against a reference that takes so many lots from the front of a list and tests no price: every event in order with every field (the bid's execution first, a used-up maker deleted), both limit lists, the last price, the place at the back of its level; the price a market order is given is left open |
| Outcomes.FireServes | src/matching/orderbook/map_orderbook.cpp:322-340 | a fired stop order is told of in one update as what its kind turns into, and then has that order's whole outcome |
| Outcomes.FiredOrderTrades | src/matching/orderbook/map_orderbook.cpp:178-184 | what that means: a stop or trailing stop order trades what it wants of the whole opposite list and never rests; the two with a limit trade only within it, and a good-till-cancelled remainder rests as a limit order without stop price and trail amount |
| StopOrders.SubmitStop | src/matching/orderbook/map_orderbook.cpp:170-187 | a stop order is fired on arrival exactly when the last price has reached its stop price, which for a trailing one is its trail amount from the market within 64 bits; otherwise it joins the back of its level in its own stop list and nothing else changes |
| StopOrders.AddStopWaits | src/matching/orderbook/map_orderbook.cpp:16-36 | in a steady book, adding a stop order that is not reached does just that, cascade included |
| StopOrders.AddOrderServes | src/matching/orderbook/map_orderbook.cpp:16-36 | where no stop order waits, adding any other order has just the outcome of its submission, cascade included |
| StopOrders.PassServes | src/matching/orderbook/map_orderbook.cpp:274-320 | a pass over a stop list fires exactly the orders the captured price has reached, front to back, each with the whole outcome of its kind, and leaves the rest of the list |
| StopOrders.BidsInOrder | src/matching/orderbook/map_orderbook.cpp:274-296 | the activation of bids fires all reached plain stops before any trailing stop, in list order, as the updates tell; the price the first pass leaves decides about the second |
| StopOrders.AsksInOrder | src/matching/orderbook/map_orderbook.cpp:298-320 | the same of the activation of asks |
| Changes.RoundInOrder | src/matching/orderbook/map_orderbook.cpp:260-272 | the updates a round of the cascade tells: bids fired, trailing asks aligned, asks fired, trailing bids aligned, in this order |
| Changes.AsksAligned | src/matching/orderbook/map_orderbook.cpp:371-398 | trailing asks are aligned exactly when the last price is above the marker; then each stands at its trail amount from the last price and the last update about it says so; otherwise only the marker moves |
| Changes.BidsAligned | src/matching/orderbook/map_orderbook.cpp:342-369 | the mirror image for trailing bids |
| Changes.ExecuteAtOutcome | src/matching/orderbook/map_orderbook.cpp:38-52 | executing at a price: the first event is the execution of the smaller of the quantity and what is open, with every field; a deletion follows and the order leaves the index exactly when that is all; the last price is then the given one; where no stop order waits nothing else happens |
| Changes.ExecuteOwnOutcome | src/matching/orderbook/map_orderbook.cpp:54-69 | the same at the order's own price |
| Changes.CancelOutcome | src/matching/orderbook/map_orderbook.cpp:71-84 | in a steady book, cascade included: one update with the order's new quantity and the 64-bit difference open, a deletion exactly when that is 0, the index changed accordingly, the last price and all other orders untouched |
| Changes.DeleteOutcome | src/matching/orderbook/map_orderbook.cpp:86-121 | in a steady book, cascade included: one deletion event, the order leaves the index, no other order does and the last price stays |
| Changes.ReplaceOutcome | src/matching/orderbook/map_orderbook.cpp:123-133 | the first two events delete the order and add the same order by the new id and price; the old id, if another, is gone |
| Matching.SweepIsFlatMatching | src/matching/orderbook/map_orderbook.cpp:400-450 | matching level by level makes exactly the fills of a simple recursive matcher on one price-time list (maker, price, quantity, in that order), leaves exactly its remainders and the price of its last fill, and leaves the taker what the crossing volume does not cover |
| Matching.FillsFollowTheList | src/matching/orderbook/map_orderbook.cpp:406-439 | the fills are with the makers at the head of the list, each at the maker's own price, within the taker's limit, at prices that never improve for the taker |
| Matching.FillsExhaust | src/matching/orderbook/map_orderbook.cpp:406-439 | the filled total is the smaller of the taker's quantity and the crossing volume |
| Matching.FillsConsumeAPrefix | src/matching/orderbook/map_orderbook.cpp:406-439 | every maker but the last one met is filled completely |
| Matching.FillOrKillIff | src/matching/orderbook/map_orderbook.cpp:452-482 | fill-or-kill as coded is all or nothing exactly when nothing crosses or the crossing volume covers the order: the level iterator never advances, so the test asks only whether one level crosses; how much is filled in every case |
| Witnesses.FillOrKillTradesFive | src/matching/orderbook/map_orderbook.cpp:452-482 | the failing case by two public calls on an empty book: five lots on offer, eight wanted or none; five lots are traded, three discarded, and nothing rests |
| Matching.IntendedFillOrKill | include/matching/orderbook/order.h:67-68 | with a test that adds up the crossing volume the documented promise holds on every book, and that test is true exactly when matching fills the order |
| BookInvariants.SweepSound | src/matching/orderbook/map_orderbook.cpp:406-439 | matching keeps the book's invariants and ends with an order that crosses nothing |
| BookInvariants.MatchSound | src/matching/orderbook/map_orderbook.cpp:400-439 | the same of matching with the fill-or-kill test; the order's terms are unchanged |
| BookInvariants.RestUncrossed | src/matching/orderbook/map_orderbook.cpp:145-161 | an unfilled remainder that crosses nothing may rest: all invariants hold, the book is not crossed |
| BookInvariants.AddLimitSound | src/matching/orderbook/map_orderbook.cpp:135-143 | submitting a limit order keeps the invariants and at most its own id is new |
| BookInvariants.AddMarketSound | src/matching/orderbook/map_orderbook.cpp:163-168 | submitting a market order keeps the invariants |
| BookInvariants.AddStopSound | src/matching/orderbook/map_orderbook.cpp:170-187 | submitting a stop or trailing stop order, fired at once or put to rest, keeps the invariants |
| BookInvariants.DrainSound | src/matching/orderbook/map_orderbook.cpp:274-320 | an activation pass over one stop map keeps the invariants and adds no id |
| BookInvariants.DropStruct | src/matching/orderbook/map_orderbook.cpp:93-121 | erasing any order leaves the index and the six lists in agreement |
| BookInvariants.AmendStruct | src/matching/orderbook/map_orderbook.cpp:71-84 | changing the quantities of an order where it stands leaves the index and the lists in agreement |
| Cascade.CascadeEndsQuiet | src/matching/orderbook/map_orderbook.cpp:260-272 | however a cascade went, no resting stop order is reached by the last price when it ends, and both trailing markers equal the last price |
| Cascade.CascadeSound | src/matching/orderbook/map_orderbook.cpp:260-272 | a cascade keeps the book's invariants and adds no order |
| Cascade.RoundsBounded | src/matching/orderbook/map_orderbook.cpp:260-272 | a cascade runs at most one round more than there are stop orders, and every repeating round takes one out for good |
| Cascade.PassFiresTheReached | src/matching/orderbook/map_orderbook.cpp:274-340 | a pass over a stop map fires exactly the orders reached by the price captured when it began, in price-then-arrival order, whatever they trade meanwhile; what is left is the rest of the list, none of it reached |
| Cascade.CascadeBanded | src/matching/orderbook/map_orderbook.cpp:342-398 | no trailing stop is ever further from the price it was aligned to than its trail amount, through any ups and downs of the price in one cascade |
| Cascade.CascadeAtRest | src/matching/orderbook/map_orderbook.cpp:260-272 | a cascade on a book at rest changes nothing |
| Cascade.QuietAtZero | src/matching/orderbook/map_orderbook.cpp:564-630 | while the last price is 0 no stop order rests |
| Rekeying.RekeyContents | src/matching/orderbook/map_orderbook.cpp:342-398 | re-keying keeps exactly the same orders, each at the last price less or plus its trail amount (saturating), sorted, and the index entries of just these orders change |
| Rekeying.RekeySound | src/matching/orderbook/map_orderbook.cpp:342-398 | re-keying keeps every invariant of the book |
| Rekeying.VisitAscends | src/matching/orderbook/map_orderbook.cpp:350-366 | the nested loops visit levels from the lowest price up ... |
| Rekeying.VisitStable | src/matching/orderbook/map_orderbook.cpp:354-364 | ... and each level from its front to its back |
| Rekeying.InsertAllAtLevel | src/matching/orderbook/map_orderbook.cpp:357-362 | orders that meet at one new price are queued in the order in which they were visited |
| Rekeying.RekeyKeepsVisitOrder | src/matching/orderbook/map_orderbook.cpp:342-398 | orders of equal trail amount end up in the order in which they were visited |
| Rekeying.RekeyKeepsBidPriority | src/matching/orderbook/map_orderbook.cpp:342-369 | trailing bids of equal trail amount keep their priority |
| Rekeying.RekeyKeepsAskPriorityIff | src/matching/orderbook/map_orderbook.cpp:371-398 | trailing asks of equal trail amount keep their priority exactly when they all stand at one stop price: the ask loop also starts at the lowest level, which is the last in priority |
| Witnesses.AsksChangePlaces | src/matching/orderbook/map_orderbook.cpp:371-398 | a run of public calls from an empty book in which two trailing asks of equal amount, at 80 and 70, change places when the price rises to 110 |
| Rekeying.AskTrailFallsIff | src/matching/orderbook/map_orderbook.cpp:371-398 | a trailing ask stop set at price p falls at an update exactly when the price has risen above the marker but not back to p, and p exceeds the trail amount: the marker is reset on every call, so the stop is no one-way ratchet |
| Rekeying.BidTrailRisesIff | src/matching/orderbook/map_orderbook.cpp:342-369 | the mirror image for trailing bid stops |
| Witnesses.AskTrailFalls | src/matching/orderbook/map_orderbook.cpp:371-398 | a run of public calls from an empty book with last prices 1720, 1710, 1715 in which a trailing ask stop falls from 1700 to 1695 |
| Witnesses.BidTrailRises | src/matching/orderbook/map_orderbook.cpp:342-369 | the mirror image: last prices 1720, 1730, 1725 take a trailing bid stop from 1740 to 1745 |
| Accounts.SubmitAccounts | src/matching/orderbook/map_orderbook.cpp:16-36 | submitting an order enters its open quantity into the ledger and nothing else, and the events of the submission replay to the new index |
| Accounts.CascadeAccounts | src/matching/orderbook/map_orderbook.cpp:260-272 | a cascade neither creates nor loses quantity, executes the same total on both sides, and its events replay to the new index |
| Accounts.SweepAccounts | src/matching/orderbook/map_orderbook.cpp:406-450 | the same for the sweep, with the order in hand counted in |
| Accounts.TradeReplays | src/matching/orderbook/map_orderbook.cpp:441-450 | the events of one trade, in the order in which they are sent, replay to its outcome for both orders, deletion included |
| Accounts.DiscardAccounts | src/matching/orderbook/map_orderbook.cpp:135-168 | deleting an incoming order accounts for exactly its open remainder |
| Accounts.DropConserved | src/matching/orderbook/map_orderbook.cpp:93-121 | erasing an order takes exactly its open quantity out of the book |
| Orders.CancelTakesTheMinimumIff | include/matching/orderbook/order.h:566-571 | a cancel takes min(q, open) off the open quantity exactly when q does not exceed it; beyond that the 64-bit subtraction wraps |
| Changes.CancelRemovesIff | src/matching/orderbook/map_orderbook.cpp:71-84 | a cancel removes its order from the book exactly when it asks for all that is open; otherwise the order rests on with the wrapped difference open |
| Witnesses.OverCancelStays | src/matching/orderbook/map_orderbook.cpp:71-84 | the failing case by two public calls: eight of five open lots are cancelled, and the order rests with 2^64-3 lots open |
| Orders.CancelKeepsValidatesIff | include/matching/orderbook/order.h:566-571 | a cancel leaves an order that passes its own debug check exactly when neither the executed nor the last executed quantity exceeds the cancelled amount, which becomes the order's quantity |
| Orders.CancelBreaksValidates | src/matching/orderbook/order.cpp:220-236 | an order for which it fails: 100 lots, 60 of them executed, 10 cancelled |
| Witnesses.CancelAfterTradesFails | src/matching/orderbook/map_orderbook.cpp:71-84 | the same by four public calls on an empty book: of five lots two are executed one by one, then one is cancelled |
| Queues.InsertAtLevel | src/matching/orderbook/level.cpp:23-30 | inserting an order appends it to its own level and changes no other |
| Queues.WithoutAtLevel | src/matching/orderbook/level.cpp:50-55 | erasing an order takes it out of its own level and changes no other |
| Queues.InsertSorted | src/matching/orderbook/map_orderbook.cpp:145-161 | insertion keeps price order and adds exactly the one order |
| Levels.Level.AddOrder | src/matching/orderbook/level.cpp:23-30 | links at the back, adds the open quantity to the volume |
| Levels.Level.PopFront | src/matching/orderbook/level.cpp:32-39 | unlinks the first order, takes its open quantity off the volume |
| Levels.Level.DeleteOrder | src/matching/orderbook/level.cpp:50-55 | unlinks the given order wherever it stands, takes its open quantity off the volume |
| Levels.Level.ReduceVolume | src/matching/orderbook/level.cpp:57-62 | takes the amount off the volume and touches nothing else |
| LevelMaps.RepresentsRest | src/matching/orderbook/map_orderbook.cpp:145-233 | a new link at the back of the right level, with the index entry pointing at that level, represents the book with the order at rest: levels hold what stands at their price, volumes are the sums of open quantities, no level is empty |
| LevelMaps.RepresentsDrop | src/matching/orderbook/map_orderbook.cpp:93-121 | unlinking an order and dropping its level when that was its last represents the book without it |
| LevelMaps.RepresentsAmend | src/matching/orderbook/map_orderbook.cpp:38-84 | changing an order's quantities and its level's volume by the difference represents the amended book |
| LevelMaps.RepresentsFirst | src/matching/orderbook/map_orderbook.cpp:406-439 | the front order of the first level is the head of the price-time list |
| Regrouping.AllArrived | src/matching/orderbook/map_orderbook.cpp:342-398 | once all orders have moved to the new map and the maps are swapped, index, levels and volumes represent the re-keyed book |
| Regrouping.EmptyingStep | src/matching/orderbook/map_orderbook.cpp:353-364 | popping the front of the lowest level that is not empty takes the next order to visit out of the old map |
| Regrouping.FillingStep | src/matching/orderbook/map_orderbook.cpp:357-362 | appending it to its new level keeps the new map's levels in visiting order |
| MapOrderBook.MapOrderBook.constructor | src/matching/orderbook/map_orderbook.cpp:8-14 | an empty book: no order, no price, the bid marker 0 and the ask marker the greatest number |
| MapOrderBook.MapOrderBook.AddOrder | src/matching/orderbook/map_orderbook.cpp:16-36 | maps, index, prices and events afterwards represent the model's book after adding the order, cascade included |
| MapOrderBook.MapOrderBook.ExecuteOrderAt | src/matching/orderbook/map_orderbook.cpp:38-52 | the same of executing a resting order at a given price |
| MapOrderBook.MapOrderBook.ExecuteOrder | src/matching/orderbook/map_orderbook.cpp:54-69 | the same of executing it at its own price, which is 0 for a resting stop order |
| MapOrderBook.MapOrderBook.CancelOrder | src/matching/orderbook/map_orderbook.cpp:71-84 | the same of a cancel, over-large ones included |
| MapOrderBook.MapOrderBook.DeleteOrder | src/matching/orderbook/map_orderbook.cpp:86-91 | the same of a deletion |
| MapOrderBook.MapOrderBook.ReplaceOrder | src/matching/orderbook/map_orderbook.cpp:123-133 | the same of a replacement, by the same or another id |
| MapOrderBook.MapOrderBook.EraseOrder | src/matching/orderbook/map_orderbook.cpp:93-121 | takes an order out of its level, the index, and the map when the level is empty |
| MapOrderBook.MapOrderBook.Match | src/matching/orderbook/map_orderbook.cpp:400-439 | the loops over levels and orders make the model's sweep |
| MapOrderBook.MapOrderBook.TradeWith | src/matching/orderbook/map_orderbook.cpp:415-450 | one trade with the first maker, its level's volume and the events included |
| MapOrderBook.MapOrderBook.CanMatchOrder | src/matching/orderbook/map_orderbook.cpp:452-482 | the loop as written ends, because every level has volume, and answers whether some level crosses |
| MapOrderBook.MapOrderBook.AddLimitOrder | src/matching/orderbook/map_orderbook.cpp:135-143 | the model's limit submission |
| MapOrderBook.MapOrderBook.AddMarketOrder | src/matching/orderbook/map_orderbook.cpp:163-168 | the model's market submission |
| MapOrderBook.MapOrderBook.AddStopOrder | src/matching/orderbook/map_orderbook.cpp:170-233 | the model's stop submission, fired at once or inserted |
| MapOrderBook.MapOrderBook.ActivateStopOrder | src/matching/orderbook/map_orderbook.cpp:322-340 | the model's firing of one stop order |
| MapOrderBook.MapOrderBook.ActivateBidStopOrders | src/matching/orderbook/map_orderbook.cpp:274-296 | the model's activation of bids, and whether it fired anything |
| MapOrderBook.MapOrderBook.ActivateAskStopOrders | src/matching/orderbook/map_orderbook.cpp:298-320 | the model's activation of asks, and whether it fired anything |
| MapOrderBook.MapOrderBook.ActivateStopOrders | src/matching/orderbook/map_orderbook.cpp:260-272 | the loop of rounds makes the model's cascade and ends |
| MapOrderBook.MapOrderBook.UpdateBidStopOrders | src/matching/orderbook/map_orderbook.cpp:342-369 | the nested re-keying loops make the model's regrouping of trailing bids; the marker is reset in every case |
| MapOrderBook.MapOrderBook.UpdateAskStopOrders | src/matching/orderbook/map_orderbook.cpp:371-398 | the same of trailing asks |
| MapOrderBook.MapOrderBook.HasOrder | include/matching/orderbook/map_orderbook.h:74-77 | true exactly for the ids that rest |
| MapOrderBook.MapOrderBook.BestBid | include/matching/orderbook/map_orderbook.h:106-109 | the highest resting bid price, 0 if there is none |
| MapOrderBook.MapOrderBook.BestAsk | include/matching/orderbook/map_orderbook.h:114-117 | the lowest resting ask price, the greatest 64-bit number if there is none |
| RobinHood.OrderedIffClustered | include/utils/robin_hood.h:1483-1490 | the order kept in the bytes is exactly the cluster order: a node away from home follows a node, homes ascend, info bits of one home descend |
| RobinHood.SearchMayStop | include/utils/robin_hood.h:1540-1563 | a search that meets a smaller byte than it expects may give up: the key is nowhere in the table |
| RobinHood.FreeSlotAhead | include/utils/robin_hood.h:2615-2619 | behind every home there is a free slot before the sentinel, with either form of the buffer size |
| Crowding.FullIffCrowded | include/utils/robin_hood.h:2615-2672 | with one info bit left, some byte is full exactly when, for some stretch of slots a to b, at least 127 + b - a keys have their homes there; this depends on the homes alone, not on where the nodes stand or in which order they came |
| Crowding.RoomIsUncrowded | include/utils/robin_hood.h:2615-2672 | a table with room in its bytes, or with more than one info bit left, has no such stretch |
| Crowding.StretchBound | include/utils/robin_hood.h:1483-1490 | in any table at most 127 + b - a keys have their homes in slots a to b |
| Crowding.HomesAscend | include/utils/robin_hood.h:1483-1490 | along the slots, gaps or not, homes never descend |
| Crowding.FewAreUncrowded | include/utils/robin_hood.h:2615-2672 | 126 keys never crowd, whatever the hash |
| Mixing.MixedInjective | include/utils/robin_hood.h:1467-1468 | the multiplication and the shifted exclusive or lose nothing: under an odd multiplier two 64-bit hashes are mixed alike exactly when they are equal, so no change of multiplier joins or parts keys by hash |
| RobinHood.InsertionSound | include/utils/robin_hood.h:1493-1513 | shifting up and writing the new node keep the marks, the order and the bounds of all bytes and add exactly one pair |
| RobinHood.RemovalSound | include/utils/robin_hood.h:1515-1535 | shifting down keeps the marks and the order, takes out exactly one pair, and lets no byte grow |
| RobinHood.HalvingSound | include/utils/robin_hood.h:2644-2672 | halving every byte and the step keeps every node, home and the order, with room for a step in every byte |
| RobinHood.WordHalving | include/utils/robin_hood.h:2658-2663 | on numbers: halving eight bytes joined into one, and reducing each, halves each of them |
| RobinHood.BitwiseHalving | include/utils/robin_hood.h:2658-2663 | on the machine word: one shift and the mask shift each of the eight bytes right by one, and no bit crosses over |
| RobinHood.DoublingAllows | include/utils/robin_hood.h:2348-2357 | a table twice the size allows more elements, across the change of rounding, and never fewer even at sizes 0 and 1 |
| HashTable.Table.constructor | include/utils/robin_hood.h:1634-1645 | an empty table that has not allocated |
| HashTable.Table.KeyToIdx | include/utils/robin_hood.h:1461-1474 | home slot and first byte of a key, from its mixed hash |
| HashTable.Table.FindIdx | include/utils/robin_hood.h:1540-1563 | the slot of a key exactly when the key is in the table, else the end |
| HashTable.Table.Find | include/utils/robin_hood.h:1540-1563 | found exactly when the key is in the map, with its value |
| HashTable.Table.ShiftUp | include/utils/robin_hood.h:1493-1513 | nodes and bytes move up by one, no byte wraps, and inserting is stopped as soon as some byte has no room |
| HashTable.Table.ShiftDown | include/utils/robin_hood.h:1515-1535 | nodes and bytes move down by one up to a node at home or a free slot |
| HashTable.Table.InsertMove | include/utils/robin_hood.h:1572-1621 | a pair with a new key joins the map unless some byte is full and no info bit is left to drop; then nothing changes |
| HashTable.Table.TryIncreaseInfo | include/utils/robin_hood.h:2644-2672 | succeeds exactly while more than one info bit is left; the map is unchanged and may take elements again |
| HashTable.Table.InitData | include/utils/robin_hood.h:2551-2571 | an empty table of the given size, sentinel set |
| HashTable.Table.RehashPowerOfTwo | include/utils/robin_hood.h:2440-2481 | succeeds exactly when no pair is moved to a table whose keys crowd already, which is told before the call by the old slots and the new homes; then every pair has been reinserted exactly once and the map is unchanged, and otherwise at least one pair is lost while no other changes |
| HashTable.LastMoveDecides | include/utils/robin_hood.h:2440-2481 | this is so exactly when all pairs but the one in the last taken slot do not crowd in the new table |
| HashTable.FewMove | include/utils/robin_hood.h:2440-2481 | up to 127 pairs can always be moved, whatever the hash |
| HashTable.Table.IncreaseSize | include/utils/robin_hood.h:2675-2714 | succeeds exactly when nothing is allocated, a hash bit can be dropped, or the rehash it takes goes through, by another multiplier in a table not 40 per cent full and by double size otherwise; the map is unchanged when it succeeds and pairs are lost when it fails; which size and multiplier result; after a rehash there is room, or a bit to drop, exactly when the keys do not crowd |
| HashTable.Table.TryEmplace | include/utils/robin_hood.h:2493-2519 | a known key leaves the map alone and only that; a new one adds exactly its pair or meets overflow. It overflows, with a loss of pairs, whenever the table is full and the rehash it takes does not go through; it does not overflow when there is room, when room can be made without a rehash, or when the rehash goes through and leaves no crowd; never while at most 126 pairs are held; and up to 127 pairs are never lost |
| TableRuns.CollidingKeysOverflow | include/utils/robin_hood.h:2493-2519 | of keys of one hash 127 are emplaced in an empty table, and the next one is refused, with nothing lost |
| TableRuns.EmplaceLosesPairs | include/utils/robin_hood.h:2440-2481 | a run of emplacing calls on an empty table, under the code's own mixing, that loses a pair: 127 keys of hash 0 and one key homed behind them go in, and the rehash that the next call takes moves the 127 first and fails |
| HashTable.Table.Search | include/utils/robin_hood.h:2585-2613 | finds the key or the slot where it is to be inserted |
| HashTable.Table.InsertAt | include/utils/robin_hood.h:2615-2642 | the new pair joins the map, unique and in cluster order, and the element count is the map's size |
| HashTable.Table.Erase | include/utils/robin_hood.h:2247-2268 | removes exactly the given key if it is there, and reports whether it was |
| Markets.BooksSteady | src/matching/market/market.cpp:9-77 | in a market used as it asks to be, every book is steady at all times |
| Markets.BookIsItsOperations | src/matching/market/market.cpp:26-77 | a symbol's book is what its operations, in the order of the calls, make of an empty book: the market applies each of them |
| Markets.BookIsOwnTasks | src/matching/market/market.cpp:9-77 | a symbol's book depends on that symbol's own tasks alone, in their order |
| BookHandlers.OrderBookHandler.AddOrderBook | src/matching/market/market.cpp:9-15 | a new empty book beside the others, which stay as they are |
| BookHandlers.OrderBookHandler.Perform | src/matching/market/market.cpp:26-77 | the symbol's book object is where this one operation leads from its old state, all other books are untouched |
| MarketSteps.Flow | include/concurrent/queue.h:25-59 | at every moment of every interleaving, what a queue was sent is what its worker has executed, then what it holds, then what still waits: first in first out, exactly once |
| MarketSteps.HandlersReplay | include/concurrent/thread_pool.h:164-178 | no worker touches another worker's handler: a handler's books are what its own worker's tasks make, one after another |
| MarketSteps.EveryMoment | src/matching/market/concurrent_market.cpp:16-89 | at every moment of every interleaving a handler's books are exactly the sequential market's books of its symbols after some first part of the client's calls, and the job a worker is about to execute is permitted there |
| MarketSteps.EachSymbolInOrder | src/matching/market/concurrent_market.cpp:38-89 | the operations applied to a symbol's book so far are the first ones submitted for it, in the order of submission, and they alone make the book, out of an empty one |
| MarketSteps.SentMakesPart | src/matching/market/concurrent_market.cpp:16-25 | handling only what one queue is sent gives that handler's share of the sequential market |
| MarketSteps.ExitedHasDrained | include/concurrent/thread_pool.h:152-178 | a worker leaves only after the stop, and only after executing everything submitted to its queue before the stop |
| MarketSteps.ExitedForGood | include/concurrent/thread_pool.h:164-178 | a worker that has left stays so and executes nothing more, so later submissions to it are lost |
| MarketSteps.LeavingDecides | include/concurrent/thread_pool.h:152-178 | which submissions are lost: a worker that leaves has executed exactly what its queue was sent up to its leaving, before or after the stop; what it is sent later waits for ever, and all is executed exactly when that is nothing |
| MarketSteps.LeftAtSomeTurn | include/concurrent/thread_pool.h:164-178 | every worker found gone left at one of its own turns, so the previous statement covers every run |
| MarketSteps.LateCallWaits | include/concurrent/thread_pool.h:152-178 | the lost submission made concrete: one worker leaves after a stop, then a call comes; in every continuation its job stays at the head of the queue |
| MarketSteps.AllExitedIsSequential | include/concurrent/thread_pool.h:152-178 | once all workers have left after a stop that no call followed, the queues are empty, every task was executed once in order, and the handlers together hold exactly the sequential market's books, event sequences included, each made of an empty book by its symbol's operations in order |
| MarketSteps.WorkersFinish | include/concurrent/thread_pool.h:164-178 | after the stop, a worker leaves within a stated number of its own turns, however the turns of all workers interleave |
| MarketSteps.Balanced | src/matching/market/concurrent_market.cpp:86-89 | the handlers' numbers of symbols differ by at most one after any run of additions |
| MarketSteps.RoundRobin | src/matching/market/concurrent_market.cpp:16-25 | handlers before the next one in turn have one symbol more than the rest |
| ConcurrentMarket.Queue.Push | include/concurrent/queue.h:25-30 | one atomic step: the element joins the back |
| ConcurrentMarket.Queue.TryPop | include/concurrent/queue.h:51-59 | one atomic step: the front element if there is one |
| ConcurrentMarket.ConcurrentMarket.constructor | src/matching/market/concurrent_market.cpp:5-14 | queues, handlers and workers at the start of a run |
| ConcurrentMarket.ConcurrentMarket.AddSymbol | src/matching/market/concurrent_market.cpp:16-25 | the objects are where the run, extended by this call, leads |
| ConcurrentMarket.ConcurrentMarket.Call | src/matching/market/concurrent_market.cpp:38-89 | the same of an operation on a symbol, sent to the symbol's queue and handler, or to the first for an unknown symbol |
| ConcurrentMarket.ConcurrentMarket.WorkerStep | include/concurrent/thread_pool.h:164-178 | the same of one step of a worker: reading the flag, reading emptiness, popping, executing on its handler's book objects |
| ConcurrentMarket.ConcurrentMarket.Shutdown | include/concurrent/thread_pool.h:152-155 | the same of the stop |

## Left out

- `deleteSymbol` of both markets, symbol names and symbol events: the concurrent one picks its handler by the next index, not by the symbol's own, and its task reads an entry erased meanwhile.
- `stop` and `start` of a pool that goes on living, waitable tasks, futures and exceptions in tasks.
- Text output (`toString`, dumps, stream operators), logging, and virtual dispatch of event handlers: events are a list in the book.
- Symbol ids: an order carries one, but levels and books do not compare them.
- Debug asserts as executable checks: `validateOrderBook`, `validateLevel` and `validateOrder` are invariants here. The handler's asserts of positive quantities, prices and ids are not required of callers, so the claims also cover calls they would stop.
- Order objects and the intrusive list: orders are values held by the index and levels link their ids, so links going stale cannot be expressed. The lists of the six maps are one field keyed by map and price, and the code's two copies of each loop, one a side, are written once with the side's tests.
- MapOrderBook.MapOrderBook.AddOrder: requires an id that does not rest, as the code assumes without checking; likewise for the new id of a replacement, unless it is the order's own.
- MapOrderBook.MapOrderBook.CancelOrder: the level's volume is exact, while the code's is that number modulo 2^64 once an over-large cancel has made an open quantity huge.
- Levels.Level.ReduceVolume: takes a signed amount, so that the raised volume after an over-large cancel is exact instead of wrapped.
- Levels.Level.PopFront: the order's open quantity is passed in, as levels hold links only; `popBack` is not used by the book.
- Priority.FirstComeFirstServed: says nothing of trailing stops, which re-keying moves between prices; for bids of one trail amount `TrailingBidsFirstCome` does, for asks it is false (`AsksChangePlaces`), and for different trail amounts the order of visiting is in `InsertAllAtLevel`.
- Overflow of a level's or the book's summed volume; executed quantities, prices and stop prices are 64 bits wide, and the recorded execution price is cut to 32 bits as in the code.
- The order of updating a level's volume and sending the events inside one trade: no event shows a volume.
- Runs.BookIsWhatTheEventsSay: the stop price computed for a trailing stop at insertion and the limit price a market order is given internally are in no event and are not rebuilt.
- HashTable.Table.TryEmplace: when the first rehash goes through and leaves a crowd (all pairs crowd in the new table, all but the last moved do not), the table rehashes again, up to 256 times, and the contract leaves open which of these ends the call; each of them is exact in `IncreaseSize`. Preparing the slot and constructing the node are one step, and overwriting insertion, which stores into a found slot, is not modelled.
- HashTable.Table.RehashPowerOfTwo: sizes are unbounded, so a doubling that overflows `size_t` does not occur; the reduction by a mask is modelled as a remainder, and so is the mask that halves eight bytes at once, which `BitwiseHalving` treats on the word itself.
- The user's hash function, allocation and its failure, the node pool, copying, moving, swapping, iteration, reserving and compacting a table.
- `Queue` methods are atomic and the memory model is sequential; `waitAndPop` and the copy constructor are not used by the pool.
- One client thread submits, as the market's own maps are not locked; a task's work on its handler is one step, because no other worker touches that handler (`HandlersReplay`).
- BookHandlers.OrderBookHandler.Perform: stands for the handler's six methods, which differ in the call they pass on; ConcurrentMarket.ConcurrentMarket.Call likewise.
