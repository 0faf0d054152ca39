# Local-life: a verified model of the flash sale, the follow feed and the shop cache

This Dafny project models the three stateful cores of the local-life service and proves what they guarantee.

**Asynchronous flash sale.** Redis admits buyers (stock, buyer markers and an event stream changed by atomic Lua
scripts), workers read the stream at least once, and MySQL commits each event's outcome in a transaction serialised
by the activity row. No transaction spans the two stores. `Protocol` describes everything as one labelled step
function: enabling callers, accepting callers and workers each carry their own local phase, any of them may crash
between any two steps, deliveries may be repeated or re-claimed, synchronous purchases and user deletions may come in
between, and the labels carry the clocks, tokens and choices. A lost reply is the step followed by the caller's crash.
`ProtocolInvariant` proves one inductive invariant over both stores; `ProtocolTheorems`, `SyncRefinement`,
`ResultReads`, `Tickets` and `WireAgreement` draw the consequences for every run. The classes `OrderStore`, `SeckillQueue`,
`AsyncOrder` and `SeckillWorker` are the imperative code, proved against the functions the steps are made of.

**Follow feed.** A scroll over a snapshot with a (max score, equal-score offset) cursor, the batched push against the
SQL join it replaces, and the publication of an index built in batches, which the GEO index shares.

**Shop cache.** The mutex-protected singleflight group with its shutdown, and the age of the rows readers are shown
over whole runs of refreshes, failures, invalidations and compare-and-set publications.

| file | content |
|---|---|
| `Model.dfy`, `Slices.dfy` | shared values; slice facts |
| `Ledger.dfy`, `OrderStore.dfy` | the SQL transactions as functions with their invariant; the same as a class |
| `Admission.dfy`, `SeckillQueue.dfy` | the scripts and stream commands as functions; the same as a class |
| `Protocol.dfy`, `ProtocolInvariant.dfy`, `ProtocolTheorems.dfy` | the step function, the invariant, the guarantees |
| `SyncRefinement.dfy`, `ResultReads.dfy`, `Tickets.dfy`, `Witnesses.dfy` | asynchronous refines synchronous; result queries are linearizable; what a reservation answers; concrete runs |
| `AsyncService.dfy` | the service |
| `Claiming.dfy`, `Fairness.dfy` | the recovery cursor over the pending list; no delivery starves |
| `Delivery.dfy`, `Paging.dfy`, `Worker.dfy` | one activity's deliveries; the scan in pages; the consumer loop in a changing world |
| `Codec.dfy`, `WireAgreement.dfy` | the text forms of an event |
| `FeedScroll.dfy`, `FeedReader.dfy`, `FeedIndex.dfy`, `Publication.dfy` | the feed; the batched publication |
| `ShopFlight.dfy`, `ShopCache.dfy` | singleflight and shutdown; bounded staleness |

## Assumptions

- Stream identifiers strictly increase, Redis loses no flash-sale data, nobody edits rows by hand, and a rejected
  transaction or script changes nothing. The SQL safety results do not need the first three: they hold for any queue.
- One activity per flash-sale system; the worker runs over any number of them. Clocks of the flash sale are arbitrary
  (they may even run backwards); order identifiers may have gaps.
- `SeckillWorker.RunWorker` runs in an arbitrary world: others act before each scan, between it and the visits of its
  page, and between any two calls of a visit (admissions, openings, competing workers, crashes), any call may fail, and
  any pending delivery may be too young to be claimed. Only for the drain is there a round `calm` from which nothing new
  is admitted, the worker's calls answer and what is pending has been idle long enough; activities may still open and
  other workers still take deliveries. What others do during a round to an activity that is not on its page comes
  before the scan or in the next round; the worker makes no call on such an activity in between.
- The feed agreement asks for a clock that never runs backwards and for harmless follows of the reader in question:
  `FeedIndex.Harmless` can be checked before the row is written, and a follow in a later millisecond than all
  rows before it always is (`LaterFollowIsHarmless`).
- The staleness bound uses one non-decreasing clock. Between the check of the two-second deadline and the reading of
  the clock that dates a record lie two adjacent instructions; `pause` is any bound on the time lost there, and 0 gives
  the plain bound of 40 minutes and 2 seconds (in milliseconds, 3 less, which is the exact maximum). Only this service
  writes the cache key.

## Findings

- `docs/api/async-order.md` lists `already_purchased`, `sold_out` and `outside_activity_window` as reasons a client can
  see. No reachable state of the protocol commits any of them: an admitted event can only fail with `user_not_found`
  (`AdmittedOutcome`). `already_purchased` cannot be committed even by a misbehaving queue: whoever owns an order of an
  asynchronous activity already has a result with the same `uk_seckill_user` key, so the insert is rejected and the
  delivery stays pending (`OwnerMeetsResultKey`, `ArbitraryQueueIsSafe`).
- Feed: a follow in the same millisecond as a blog is harmful exactly when that blog is not in the reader's index and
  its `Followers` query has already missed the reader, or its push to the reader is already spent. Once everything in
  flight has landed, the reader is in sync if and only if the follow was harmless (`FollowTie`); a blog lost this way
  stays in the join and out of the index over every run without a repair (`LostForGood`). `TieLosesBlog` and
  `TieKeepsBlog` are the two orders of the same rows; a rebuild repairs (`RebuildRestores`).
- `Enable` fences an activity before it knows that Redis can represent it. One that begins before 1970 (or whose end or
  stock exceeds 2^53-1, which the columns do not admit) is refused as invalid only after that, and can then neither be
  opened nor be sold synchronously, over every run (`EnableDecides`, `UnfitStaysFenced`).
- The staleness bound is attained (`BoundIsTight`).

## Model

| member | source | states |
|---|---|---|
| Ledger.ApplyKeepsInv | internal/repository/async_order.go:83-146 | applying any event keeps the SQL invariant: stock and orders balance, one order and one result per user, created results and orders pair off |
| Ledger.ArbitraryQueueIsSafe | internal/repository/async_order.go:83-146 | whatever the queue delivers, duplicated, reordered or forged: stock + orders = capacity, stock >= 0, one order per user, orders and created results one to one, `already_purchased` never committed |
| Ledger.ReplayIsIdempotent | internal/repository/async_order.go:89-95 | an applied event changes nothing when it comes again later and gets the same answer |
| Ledger.RecordedStays | internal/repository/async_order.go:89-95 | a committed outcome is never replaced, whatever is applied afterwards |
| Ledger.OwnerMeetsResultKey | migrations/000004_async_seckill.up.sql:18-21 | a user who owns an order of an asynchronous activity already has a created result, so another event of that user meets the unique key |
| Ledger.PlaceKeepsInv | internal/service/order.go:52-87 | a synchronous purchase conserves stock + orders, serves its user, and does nothing but conflict once async_state has left 0 |
| Ledger.PlaceServesFirstComers | internal/service/order.go:52-87 | a sequence of purchases serves exactly the first `stock` distinct users that asked inside the window |
| Ledger.StageFreezes | internal/repository/async_order.go:34-55 | Stage succeeds exactly on an unused, unfinished activity with stock or an already fenced one, and every later Stage returns what the first one froze |
| Ledger.ActivateOpens | internal/repository/async_order.go:60-74 | succeeds exactly for the frozen generation of a fenced activity, moves nothing but the state, and refuses without a change |
| Ledger.ApplyAnswers | internal/repository/async_order.go:83-146 | refuses without a change, replays the stored row, or commits one: a new order of this user that costs one unit, or the first failure that applies, each reason by its own condition; exactly when each happens |
| Ledger.PlaceAnswers | internal/service/order.go:50-91 | the id returned is a new order of this user, one unit is gone and nothing else changed; each refusal has its own condition and changes nothing |
| OrderStore.OrderStore.DecrementStock | internal/repository/order.go:62-65 | takes one unit exactly when one is left |
| OrderStore.OrderStore.CreateOrder | internal/repository/order.go:66-69 | inserts the order, or reports the duplicate or the missing user and changes nothing |
| OrderStore.OrderStore.CreateResult | internal/repository/async_order.go:139 | inserts the outcome unless either unique key is taken |
| OrderStore.OrderStore.Stage | internal/repository/async_order.go:29-58 | fences an unused, unfinished activity with stock and freezes generation and capacity; later calls return what was frozen |
| OrderStore.OrderStore.Activate | internal/repository/async_order.go:60-74 | moves 1 to 2 for the frozen generation only, repeatably |
| OrderStore.OrderStore.Result | internal/repository/async_order.go:76-80 | finds the user's committed outcome, or there is none |
| OrderStore.OrderStore.Apply | internal/repository/async_order.go:83-146 | the transaction with its rollbacks is the Apply step; every error leaves all tables as they were |
| OrderStore.Order.Place | internal/service/order.go:41-92 | the transaction closure is the Place step; the order returned is the one row that was inserted, it is the caller's and it is new; every error leaves the tables as they were |
| SeckillQueue.SeckillQueue.Prepare | internal/cache/seckill.go:45-61 | creates both keys for a valid snapshot or touches neither |
| Admission.CheckRecognises | internal/cache/lua/seckill_check.lua:1-13 | with the flag Check accepts exactly what Prepare makes, without it exactly the same snapshot with its stock in range; Prepare keeps what exists and tells a conflict from an invalid seed |
| SeckillQueue.SeckillQueue.HasGroup | internal/cache/lua/seckill_check.lua:7-12 | the scan finds the consumer group exactly when it exists |
| SeckillQueue.SeckillQueue.Check | internal/cache/lua/seckill_check.lua:1-13 | accepts exactly a consistent snapshot with the group, and with the flag only a pristine one |
| SeckillQueue.SeckillQueue.ReserveForGeneration | internal/cache/lua/seckill_reserve.lua:2-49 | stream entry, stock and buyer marker change together or not at all, with the coded order of refusals |
| SeckillQueue.SeckillQueue.Receipt | internal/cache/lua/seckill_receipt.lua:1-20 | returns the reservation the buyer marker names, not_found without a marker, a failure when marker and entry disagree |
| SeckillQueue.SeckillQueue.Read | internal/cache/seckill_consumer.go:45-57 | delivers the next undelivered entries in order and makes them pending |
| Admission.ReadTakesNext | internal/cache/seckill_consumer.go:45-57 | the reply is the front of the undelivered entries, as many as there are up to count; exactly these become delivered and pending |
| SeckillQueue.SeckillQueue.Claim | internal/cache/seckill_consumer.go:58-65 | walks the pending list from the cursor, passes over what is too young, claims up to count within ten times as many looks, and returns the next pending entry as cursor, wrapping at the end |
| SeckillClaiming.ClaimMovesOn | internal/cache/seckill_consumer.go:58-65 | one claim looks at all pending entries between its cursor and the one it returns, claims exactly the idle ones of them in id order, at most count of at most ten times count, and stops before the end only for one of these limits, at the next pending entry |
| SeckillClaiming.SweepLooksAtAll | internal/service/seckill_worker.go:44-55 | following the returned cursor from 0-0 until it wraps looks at every pending entry, each in exactly one claim, with count at least in all claims but the last |
| SeckillFairness.NoDeliveryStarves | internal/service/seckill_worker.go:44-78 | a pending delivery the worker may claim is settled within owed / 20 + 2 visits from any cursor, although all others stay too young to be claimed and other workers act between its calls |
| SeckillFairness.ServeSettlesClaimed | internal/service/seckill_worker.go:49-78 | a visit settles every pending entry it looks at and may claim, unless its delivery is cut off |
| SeckillFairness.ServeSettlesRead | internal/service/seckill_worker.go:57-78 | a visit settles every entry it reads, unless its delivery is cut off |
| SeckillQueue.SeckillQueue.Ack | internal/cache/seckill_consumer.go:66-71 | removes one entry from the pending list and nothing else |
| SeckillQueue.SeckillQueue.Compensate | internal/cache/lua/seckill_compensate.lua:3-10 | returns one unit and marks the event, once, behind all its guards |
| ProtocolInvariant.NextKeeps | internal/service/async_order.go:46-133 | every step of every caller, worker, crash and bystander keeps the cross-store invariant, and committed facts only grow |
| ProtocolInvariant.RunKeeps | internal/service/async_order.go:46-133 | the same over whole runs |
| ProtocolInvariant.FreshUser | internal/cache/lua/seckill_reserve.lua:31-32 | an admitted event without an outcome belongs to a user without any outcome |
| ProtocolInvariant.LoggedVerdict | internal/repository/async_order.go:99-138 | for an admitted event no guard of Apply refuses and the outcome is an order, or user_not_found if the user is gone |
| ProtocolInvariant.StocksBalance | internal/cache/lua/seckill_reserve.lua:44 | SQL stock = Redis stock + admitted events without outcome + failures not yet compensated, from the invariant |
| ProtocolTheorems.Conservation | internal/service/async_order.go:122-133 | the stock equation and 0 <= Redis stock <= SQL stock <= capacity in every reachable state |
| ProtocolTheorems.AdmittedOutcome | internal/repository/async_order.go:103-121 | an admitted event always gets an order or user_not_found; the other failures and all refusals are unreachable |
| ProtocolTheorems.NoDeliveryLost | internal/service/async_order.go:122-133 | every stream entry is undelivered, pending or settled in every reachable state |
| ProtocolTheorems.AckFollowsSettlement | internal/service/async_order.go:122-133 | only an acknowledgement removes a pending entry, and only after its outcome is committed and its failure compensated |
| ProtocolTheorems.CompensationNeverStuck | internal/cache/lua/seckill_compensate.lua:5-9 | for a delivered event with a failed outcome no guard refuses; the stock rises by one exactly the first time |
| ProtocolTheorems.StockRisesOnce | internal/cache/lua/seckill_compensate.lua:5-9 | Redis stock rises only by compensating a committed failure that was not compensated before |
| ProtocolTheorems.ActivationFence | internal/repository/async_order.go:29-74 | async_state only rises, generation and capacity are fixed once, no order and no reservation exists before their state, every later order has a result |
| ProtocolTheorems.NoOrdersWhileStaged | internal/repository/async_order.go:34-47 | while async_state is 1 there is no order |
| ProtocolTheorems.SyncPathIsFenced | internal/service/order.go:58-60 | from Stage on, a synchronous purchase conflicts and changes nothing |
| ProtocolTheorems.SnapshotMatchesSql | internal/cache/lua/seckill_prepare.lua:3-18 | Redis appears once, by Prepare in state 1, pristine and with the SQL stock |
| ProtocolTheorems.OpeningIsPristine | internal/service/async_order.go:66-69 | the step to state 2 finds the snapshot untouched: all three stocks agree at that instant |
| ProtocolTheorems.UnfitStaysFenced | internal/cache/seckill.go:45-49 | an activity fenced with a snapshot Redis cannot represent stays in state 1 over every run: nothing reserved, nothing ordered, every synchronous purchase conflicts |
| ProtocolTheorems.QuiescentAgrees | internal/service/async_order.go:122-133 | with nothing undelivered or pending, every buyer has exactly one outcome, failures = compensated events, and the stocks agree |
| ProtocolTheorems.ScheduleIndependence | internal/service/seckill_worker.go:65-78 | two runs that admitted the same users, the same of whom failed for having been deleted, end with the same order owners and stocks, whatever the deliveries and crashes |
| ProtocolTheorems.RestedBuyers | internal/service/async_order.go:122-133 | at rest without failures the order owners are exactly the admitted users |
| ProtocolTheorems.RestedOrders | internal/service/async_order.go:122-133 | at rest, deletions allowed, the order owners are exactly the admitted users whose outcome is not a failure, and both stocks are capacity minus orders |
| Witnesses.SaleHappens | internal/service/async_order.go:46-133 | a concrete run from an unused activity to a created order at rest |
| Witnesses.FailureHappens | internal/service/async_order.go:122-133 | a concrete run in which a deleted buyer's event fails and its unit comes back once |
| SyncRefinement.AsyncRefinesSync | internal/service/async_order.go:71-90 | while no registered buyer is deleted: in every interleaving the requests get the answers the synchronous path gives in the same order, and after draining the buyers are its buyers, the first `capacity` distinct users inside the window |
| SyncRefinement.ReserveMatchesPlace | internal/cache/lua/seckill_reserve.lua:29-44 | one reservation and one synchronous purchase answer alike and leave the same buyers and stock |
| SyncRefinement.OpeningStartsTheSale | internal/service/async_order.go:66-69 | every opening of an activity is a starting point of the refinement, with the same activity in synchronous mode beside it |
| SyncRefinement.Simulates | internal/service/async_order.go:71-90 | the simulation between both paths holds along every run |
| ResultReads.ReceiptFindsTicket | internal/cache/lua/seckill_receipt.lua:4-20 | in reachable states the receipt script returns exactly the buyer's ticket and never its failure reply |
| ResultReads.StatusAdvances | internal/service/async_order.go:91-121 | a user's true status only moves not found, pending, one final outcome; ticket and order never change |
| ResultReads.ResultIsLinearizable | internal/service/async_order.go:91-121 | although the three reads happen at three moments, the answer was the true status at one instant of the call and is never the broken-state error |
| ResultReads.AnswersAdvance | internal/service/async_order.go:91-121 | a later call never goes back on an earlier call's answer |
| SeckillTickets.ReserveAnswers | internal/cache/lua/seckill_reserve.lua:2-49 | in reachable stores an accepted reservation adds one entry, one marker and one taken unit, all under a ticket later than every earlier one and held by nobody; each refusal has its own condition and changes nothing |
| SeckillTickets.TicketIsUnique | internal/cache/lua/seckill_reserve.lua:43-49 | exactly one entry has the ticket, the new one of this buyer |
| SeckillTickets.AttemptIsAnswered | internal/service/async_order.go:71-90 | whatever happened since the caller looked at the row, its reservation is answered with its own new ticket, and its status is then pending with that ticket |
| SeckillTickets.TicketIsHonoured | internal/service/async_order.go:71-121 | every later Result call of the buyer, with any steps between its reads, reports the very ticket that was handed out, pending or final |
| AsyncService.AsyncOrder.Enable | internal/service/async_order.go:46-70 | an uninterrupted call is the four protocol steps; success means active and checked; exactly which activities it refuses, opens, or leaves fenced, and with which answer |
| AsyncService.EnableDecides | internal/service/async_order.go:46-70 | refuses exactly an unfenced activity that is sold, sold out or over; opens every other whose snapshot fits and leaves existing Redis data alone; fences but does not open what does not fit |
| AsyncService.AsyncOrder.Accept | internal/service/async_order.go:71-90 | an uninterrupted call is the look and reserve steps; the ticket answered is the new entry of this user, which the marker stores and the status shows; a refusal has its own condition and changes nothing |
| AsyncService.AsyncOrder.Result | internal/service/async_order.go:91-121 | in reachable states the call reports the user's status: pending or final with its ticket, a conflict before the opening, not found without a ticket, never a broken state |
| AsyncService.AsyncOrder.Process | internal/service/async_order.go:122-133 | the call is apply, compensate, acknowledge; success leaves the event settled and not pending, and a delivered event cannot fail |
| AsyncService.EnableResumes | internal/service/async_order.go:58-69 | repeating Enable after any crash completes the activation and leaves existing Redis data alone |
| SeckillDelivery.ProcessSettles | internal/service/async_order.go:122-133 | whatever other workers do between its calls, processing a delivered event leaves its outcome committed, a failure compensated and nothing of it owed; wherever a delivery stops instead, the activity stays sound and only grows |
| SeckillDelivery.AloneItIsProcess | internal/service/async_order.go:122-133 | with nobody acting in between, a delivery is the service's Process, for any stores and event |
| SeckillDelivery.StoppedStaysPending | internal/service/async_order.go:122-133 | a delivery that stops before any of its three calls acknowledges nothing |
| SeckillDelivery.VisitKeeps | internal/service/seckill_worker.go:44-78 | whatever fails in a visit, whatever is too young to be claimed and whatever others do between its calls, the activity stays open and sound and only grows, and owes no more than before if the others admit nothing |
| SeckillDelivery.VisitProgress | internal/service/seckill_worker.go:44-78 | a visit whose calls answer and whose pending entries are old enough lowers the weight (two per delivery owed, one more per entry nobody has read, one for a claim cursor that has to wrap) until it is zero, although other workers read, claim and settle in between |
| SeckillDelivery.RunEases | internal/service/async_order.go:46-133 | any protocol run on an open activity keeps it open and sound and only grows it, and only admissions add to what it owes |
| SeckillPaging.CycleVisitsAll | internal/service/seckill_worker.go:29-40 | each page being a new query while activities open: a cycle visits none twice, each when it was active, and, once a short page ends it, every activity that was active throughout |
| SeckillWorker.RunIsMeanwhile | internal/service/async_order.go:46-133 | any protocol run by others on an activity, open or not, is among the changes the worker tolerates, and a quiet one if it reserves nothing |
| SeckillWorker.SeckillWorker.ActiveIDs | internal/repository/async_order.go:148-152 | the scan returns the first `limit` active ids beyond the cursor, in order |
| SeckillWorker.SeckillWorker.Deliver | internal/service/seckill_worker.go:44-78 | claim, read and the delivery loop are one visit, failing calls included |
| SeckillWorker.SeckillWorker.Round | internal/service/seckill_worker.go:40-79 | every activity on the page is visited once with its own cursor and luck; all others are untouched |
| SeckillWorker.SeckillWorker.NextPage | internal/service/seckill_worker.go:28-79 | one round: the page is the next one of what is open at the scan, exactly its activities are visited, a full page continues after its last id, a short one restarts the cycle, a failed scan does nothing |
| SeckillWorker.TraceEases | internal/service/seckill_worker.go:27-89 | between any two rounds of a history every open activity stays open and sound and only grows, and over quiet rounds none owes more |
| SeckillWorker.TraceDrains | internal/service/seckill_worker.go:27-89 | an activity open at round `calm` of a history is drained once its due round has come: (active/100 + 1) rounds per unit of its weight at `calm`, with two units more if the worker was already under way |
| SeckillWorker.CycleOfRun | internal/service/seckill_worker.go:29-40 | in every history, each cycle visits no activity twice and, once a short page ends it, has visited every activity open at its start, whatever opens and fails meanwhile |
| SeckillWorker.SeckillWorker.RunWorker | internal/service/seckill_worker.go:27-89 | the exact history of the run, round by round; in any world every open activity stays open and sound and only grows; for each round `calm` from which the calls answered and nothing was admitted, every activity open then is drained by the round due for what it owed then |
| Codec.FormatRoundTrip | internal/cache/seckill.go:67 | decimal text of any number parses back to it |
| Codec.IntRoundTrip | internal/cache/seckill.go:115 | every signed 64-bit number survives its text, unsigned ones too, and nothing beyond the range is parsed |
| Codec.TicketsAreUnique | internal/cache/seckill.go:33 | distinct stream identifiers have distinct texts |
| Codec.RefusalsDecode | internal/cache/seckill.go:98-108 | a refusal is reported as its own kind exactly for the five public codes; any other text is a failure |
| Codec.AcceptedIsStrict | internal/cache/seckill.go:109-120 | only four well-formed elements are taken for an event, and then for exactly the event they spell |
| Codec.ParseFields | internal/cache/lua/seckill_receipt.lua:9-15 | the field loop builds the entry's map and refuses odd shapes and repeated names |
| Codec.Receipt | internal/cache/lua/seckill_receipt.lua:4-20 | the script's reply for any marker and entries, genuine or not |
| Codec.ReceiptIsStrict | internal/cache/lua/seckill_receipt.lua:4-20 | accepted exactly when the marker names one entry made of this buyer's four fields in any order; a missing marker is told apart from a disagreement |
| Codec.MessageIsStrict | internal/cache/seckill_consumer.go:82-100 | a message decodes exactly if it has four fields, names this activity and a user and spells a valid id, generation and time; and then to exactly these |
| Codec.DecodeMessages | internal/cache/seckill_consumer.go:82-100 | of any batch the valid entries are returned in order and exactly the others are faults |
| Codec.EventRoutesAgree | internal/cache/seckill.go:87-120 | reserve reply, receipt reply and stream message of an event decode to that event, for all non-zero 64-bit ids and times to 2^53-1 |
| Codec.BatchDecodes | internal/cache/seckill_consumer.go:82-100 | a batch of genuine entries decodes to exactly those events in order, without faults |
| WireAgreement.AdmittedEventsDecode | internal/cache/lua/seckill_reserve.lua:34-49 | every entry of every reachable stream decodes on all three routes, and no other entry has its ticket |
| WireAgreement.ReservationsDecode | internal/cache/seckill_consumer.go:35-44 | in every reachable state the service decodes from the reserve script exactly what the script decided: the admitted event or the reason of the refusal |
| FeedScroll.AdvanceDenotes | internal/service/feed.go:133-145 | an issued cursor denotes the index right after its page, also when one score spans many pages |
| FeedScroll.ItemsPick | internal/service/feed.go:116-132 | the items are the blogs at ascending candidate indexes, and an index is among them exactly when its blog is visible |
| FeedScroll.PageIsExact | internal/service/feed.go:105-146 | a page from an issued cursor has exactly the next candidates, shows exactly the visible ones in their order, and has_more is false exactly at the end |
| FeedScroll.ScrollIsExact | internal/service/feed.go:105-146 | following next_cursor with any page sizes and visibilities covers the snapshot in order without gap or repeat, shows of each page exactly the visible blogs in order, and ends |
| FeedReader.FeedStore.Snapshot | internal/cache/lua/feed_snapshot.lua:2-5 | index and cardinality are copied together; earlier snapshots stay |
| FeedReader.FeedStore.Page | internal/cache/feed.go:63-95 | whatever key expired, the answer is a range of the snapshot as it was taken, or a conflict |
| FeedReader.Join | internal/service/feed.go:116-132 | the items are the visible candidates, each once and in the candidates' order |
| FeedReader.Next | internal/service/feed.go:134-142 | the backward count computes the next cursor |
| FeedReader.Read | internal/service/feed.go:65-147 | validation first; then of the original snapshot the candidates from the cursor on, exactly the visible ones in order, with a cursor right behind them, or a conflict exactly when the snapshot is gone |
| FeedReader.ReadAll | internal/service/feed.go:65-147 | a client that starts with the empty cursor and follows next_cursor, while the index changes and keys expire, is shown the visible blogs of the whole index of its first request in order without gap or repeat, unless a snapshot key is lost |
| FeedIndex.ReplayedPush | internal/cache/feed.go:45-46 | pushing in parts or again equals pushing once to everyone reached |
| FeedIndex.FirstScoreStays | internal/cache/feed.go:45-46 | a reader's entry keeps its first score |
| FeedIndex.FeedLive.Push | internal/cache/feed.go:35-53 | any failure between or inside batches leaves a push to some of the recipients; success reaches all of them |
| FeedIndex.QueryMatchesJoin | internal/repository/follow.go:43-47 | the Followers query of a publisher lists exactly the readers to whom the join shows the blog at that moment |
| FeedIndex.RunKeeps | internal/repository/follow.go:24-60 | over every run of follow, unfollow, publish, push, delete and rebuild in which the reader's own follows are harmless, whatever the join shows the reader is in the index or on its way |
| FeedIndex.SyncIffServed | internal/repository/follow.go:48-60 | a reader sees part of the join with its scores, and all of it exactly when each visible blog was pushed to it or is in its latest rebuild |
| FeedIndex.PushedFeedAgrees | internal/service/feed.go:55-64 | when the pushes of the visible blogs completed, or a rebuild covered them, the visible index equals the FeedSource join |
| FeedIndex.RebuildRestores | internal/service/feed.go:148-164 | after a rebuild the index is the join and nothing else, whatever was lost before |
| FeedIndex.RebuildPublishesJoin | internal/service/feed.go:156-160 | replacing by the rows of the join, each once, is the rebuild step |
| FeedIndex.FollowExactly | internal/repository/follow.go:24-30 | a new follow keeps the index invariant exactly when it is harmless |
| FeedIndex.LaterFollowIsHarmless | internal/repository/follow.go:43-47 | a follow in a later millisecond than every row is harmless |
| FeedIndex.LostForGood | internal/repository/follow.go:43-47 | a blog that is visible but neither indexed nor on its way stays so over every run without a rebuild, unfollow, deletion, second query or second push |
| FeedIndex.FollowTie | internal/repository/follow.go:43-47 | over whole runs, once nothing is in flight, and without a repair in between, the reader is in sync if and only if the follow was harmless when it was written |
| FeedIndex.TieKeepsBlog | internal/service/feed.go:55-64 | a run in which a follow of the blog's own millisecond precedes the query and loses nothing |
| FeedIndex.TieLosesBlog | internal/repository/follow.go:43-47 | a run in which such a blog is lost although its push completed |
| Publication.CardinalityDetectsDuplicates | internal/cache/lua/feed_replace.lua:4 | a sorted set built from rows has as many members as rows exactly when no id repeats |
| Publication.Index.Add | internal/cache/geo.go:77-81 | one batch overlays its rows on the temporary index |
| Publication.Index.Build | internal/cache/feed.go:112-124 | all batches acknowledged and the key never lost: the temporary index is the input; once lost, it stays too small |
| Publication.Index.Publish | internal/cache/lua/geo_publish.lua:2-13 | live index and marker change together, and only for the full count |
| Publication.Index.Replace | internal/cache/feed.go:96-126 | succeeds exactly for valid, distinct rows built without disturbance, leaving exactly the input; after a failure the complete new index is live exactly when the build was faultless and only the script's reply was lost, and otherwise the old index and marker are untouched |
| Publication.Index.Search | internal/cache/geo.go:29-42 | the reader accepts exactly a published category whose marker matches |
| ShopFlight.RunKeeps | internal/service/shop_refresh.go:26-55 | the singleflight invariant in every interleaving of refresh, completion and close |
| ShopFlight.EveryInterleaving | internal/service/shop_refresh.go:43-55 | entries and running jobs pair off, at most 64; each done channel closes at most once and exactly when its outcome is ready; drained closes exactly when closed and empty |
| ShopFlight.AnswerIsShared | internal/service/shop_refresh.go:26-42 | a caller gets the running call of its shop or a new one; refusals happen exactly when closed or full |
| ShopFlight.OutcomeIsTheJobs | internal/service/shop_refresh.go:43-74 | over every run a call has an outcome exactly when its job has ended, and then the very one its job ended with |
| ShopFlight.WaiterGetsItsJob | internal/service/shop_refresh.go:26-55 | the job that ends a call works for the shop its waiters asked for, and what it leaves is what they read at any later time |
| ShopFlight.ClosedOnlyShrinks | internal/service/shop_refresh.go:102-111 | after closing nothing starts, entries only leave and outcomes stay |
| ShopFlight.ShutdownCompletes | internal/service/shop_refresh.go:102-118 | when the jobs running at the close have finished, in any order, drained is closed once |
| ShopFlight.Shop.Refresh | internal/service/shop_refresh.go:26-42 | the critical section is the refresh step with its answer |
| ShopFlight.Shop.Finish | internal/service/shop_refresh.go:43-55 | the deferred function is the finish step: it leaves this outcome in its call, touches no other outcome and closes its channel for the first time |
| ShopFlight.Shop.Close | internal/service/shop_refresh.go:102-111 | the critical section is the close step, once |
| ShopCache.PostponedIsGrounded | internal/service/shop_refresh.go:88-98 | rewriting a record after a failed refresh keeps it as grounded in the database as before |
| ShopCache.NextKeeps | internal/service/shop_refresh.go:56-98 | every step of any number of jobs and readers keeps every record, loaded copy and pending publication grounded |
| ShopCache.StalenessIsBounded | internal/service/shop.go:108-119 | every row shown was the database row less than 40 minutes and 2 seconds earlier, every not-found was true less than 47 seconds earlier, over all runs; the strict ends lower the bound by 3 milliseconds |
| ShopCache.PublicationReplacesWhatWasLoaded | internal/cache/shop.go:43-60 | over all runs a refresh replaces nothing but what its own load saw, or an empty key after a failed load |
| ShopCache.BoundIsTight | internal/service/shop_refresh.go:77-81 | a run that attains the bound: a row shown 2401997 milliseconds after it last was true |
| ShopCache.ShopStore.CompareAndSet | internal/cache/shop.go:43-60 | replaces the record exactly when it is still the one loaded and the new one is valid and has time to live |
| ShopCache.ShopStore.Rebuild | internal/service/shop_refresh.go:56-98 | an undisturbed job is its sequence of steps; it reports a fresh record or what its query found, and leaves a record good for 30 to 35 minutes, a negative one for 30 to 45 seconds, or the old one with its next attempt put off by five seconds within its lifetime |
| ShopCache.ReportIsGrounded | internal/service/shop_refresh.go:56-74 | what an undisturbed job reports was the database row, or its absence, within the staleness bound |
| ShopCache.RunJob | internal/service/shop_refresh.go:43-98 | the goroutine leaves in its call what its job reported, closes it, and leaves the record of the job |
| ShopCache.Detail | internal/service/shop.go:97-124 | a row is shown until it expires, with its refresh started once it is due; a negative record answers until it is due; everything else joins a call or is refused as the group refuses |
| ShopCache.Await | internal/service/shop.go:125-136 | a joined call ends with the outcome its own job ended with over the whole run of the group, or with its own context |

## Left out

- HTTP, sessions, configuration, migrations, connection pools and command-line entry points: plumbing.
- JSON and base64 of feed cursors and cache records, GORM and the Redis client: encodings are taken as injective, so a
  decoded cursor and a stored record stand for their text; a cursor that does not decode is not modelled.
- Loss of flash-sale data in Redis, ACL refusals and HSET failing after XADD: a script is atomic. A delayed Enable that
  recreates lost keys is outside the assumptions.
- `Seckill.Reserve` without a generation: not wired to the service.
- The reply a timed-out call never delivers: a lost reply is the step followed by a crash of its caller.
- Delivery counts and exact idle times of pending entries: which entries are too young is arbitrary at every claim.
- SeckillWorker.SeckillWorker.RunWorker: keeps each activity's two stores as a value of a map, so aliasing between store
  objects is not captured; ticks, counters and logging are left out, and a context that ends within a visit is a visit
  whose remaining calls fail.
- ShopCache.ShopStore.CompareAndSet: one shop's key with an opaque row, so of the record checks only the order of the two
  times remains; identifiers, zero times and the category inside the row are not modelled.
- ShopFlight.Shop.Refresh: calls are numbered; `done` channels are counters of closes and a call's row or error is an
  entry of a map, so the aliasing of call objects is not captured. Waiting on a channel is not a step.
- ShopCache.StalenessIsBounded: the documentation promises no linearizable reads and no protection against the
  empty-token refill race, so nothing is stated about them.
- FeedIndex.PushedFeedAgrees: the rows of a transaction become visible at their timestamp; a transaction that commits late
  is not modelled. Rebuild is one step because its documentation asks for writes to be paused.
- FeedReader.FeedStore.Snapshot: ties are kept in the one order of the stored set; that this is reverse lexicographic
  order of the member text is not modelled, and a snapshot belongs to one reader.
- ShopCache.RunJob: a job that panics leaves an internal error in its call; panics are not modelled.
- Geographic distances, coordinates and the nearest-first search: an opaque payload.
- Likes, profiles, sign-in, vouchers, media, authentication, offset lists and error mapping: easy or finite members.
