# What the ticketing back end promises, proved

A Dafny model of the ticketing back end: the sale of counted and numbered tickets, the machinery
that makes redelivered work harmless, the organisers' ledger, and the algorithms the domain layer
is proud of. Every statement is for all inputs, all interleavings or all reachable states.

## How the model is laid out

**The sale.** `Sales` is a state machine over the rows of the database: tiers, chairs, orders and
admissions. A step is one transaction: a checkout over any basket, a confirmation, a cancellation,
one expiry or a sweep over any orders, a provider's news about an order, an operator's edit made on
a copy that may be stale, chairs blocked and unblocked, a scan at the door, a backfill of tickets. A
run is any sequence of steps at any instants, so it stands for every interleaving and every
redelivery. `SalesInvariant` says what every reachable state keeps and `SalesSteps` proves that
every step keeps it. `SalesTheorems`, `SeatTheorems` and `DoorTheorems` draw the consequences. They
are the audit that cmd/loadtest/main.go runs, proved for every state instead of looked at in one.
`SalesOutcomes` and `StartOutcomes` say what each step does to the rows themselves: which status, which
counters by how much, which chairs and tickets, and that nothing else moves.

`BoxOffice` is the code itself: a class whose fields are the tables, one method per conditional SQL
statement, and above them the use cases with their loops, their rollbacks and their order of
statements. Each transaction is proved to compute exactly the step of `Sales` it stands for.
`StockMoves` and `StartMoves` hold the lemmas that join the two levels. `Orders` and `Tickets` are
the entities those methods load, change and write back; `Basket` is the normalisation in front of
them, and `BasketAcceptance` says of the lines as they were sent which baskets pass it. `Locks` is what its order buys, for every kind of transaction together, and `LockTheorems` says
exactly which transactions fall outside it.

**Exactly once.** `JobLedger` is the durable queue with crashing workers, a sweep and a clock, and
`JobSchedule` is when its jobs run.
`IdempotencyKeys` is one key of one endpoint with leases, take-overs and crashes, each step of a request
being one SQL statement; `KeyRaces` is what that leaves open. Both have a class for the statements and a
step machine for the protocol.

**Money.** `OrganiserLedger`, `BankingCalendar`, `Pricing` and `Reais`.

**Algorithms.** `AdmissionCode`, `Overlap`, `SeatRows` with `SeatLabels`, and `Accessibility` with
`AccessibilityTheorems` and `AccessibleSeats`.

`Results` and `Text` hold 64-bit wrapping, trimming, string order and numerals. Go's `int` and `int64`
wrap where the model says `Wrap`; everywhere else integers are unbounded. Coordinates are real
numbers. The clock, random bytes, the retry jitter, the orders a sweep locked and the answers of the
payment provider are inputs. Check a whole project with `dafny verify dfyconfig.toml`.

## Where the code does not do what it says

Each of these is a proved statement. Where a condition separates good runs from bad ones, the
condition is proved in both directions.

- The ten-ticket cap is compared with a 64-bit sum. It holds exactly for baskets whose tickets fit in
  an int64, and normalising twice is normalising once exactly when, of every tier asked for without
  chairs, the quantities asked for have a positive 64-bit sum (`CapHoldsExactlyWithoutOverflow`,
  `IdempotentExactlyWhenPositive`). In the same way an order that `New` accepts passes `ValidatePricing`
  exactly when no sum wraps (`AcceptedIsConsistentExactlyUnwrapped`).
- domain/order/order.go:543-548 makes deadlock impossible between checkouts. That is proved, and with them
  for cancellations, single expiries, payments in time, refunds, edits and redrawn areas
  (`PlansNeverDeadlock`). A late settlement takes chairs of every tier before the counter of any: a
  checkout can trap it exactly when the order has chairs in a tier that is not its first
  (`LateSettlementIsTrappedExactly`). A sweep of several orders can be trapped exactly when some order
  names a tier, not released by the sweep before, that precedes one that was
  (`SweepIsTrappedExactly`). The database ends such a deadlock by failing one of the two transactions.
- The seat port says a claim of chairs takes all or none (domain/seating/repository.go:13-24). The
  statement takes what is free and reports the rest, and every caller undoes it.
- A seated tier's quantity is a column of its own. The four statuses of its chairs sum to it exactly when
  the last accepted write of that column was the number of its chairs, which nothing asks for
  (`ChairsAreConserved`, `AnEditOutgrowsTheRoom`). Counters and held or sold chairs agree regardless.
- The worker checks that an attempt's limit is below the stale window, but the ten seconds allowed for
  recording the outcome come on top. Announced work can be lost exactly for limits strictly between
  290 and 300 seconds (`TheGuardForgetsTheBookkeeping`).
- In the same way a failed job waits out its backoff over every run exactly when no attempt outlasts the
  stale window: past it, the late report of another attempt calls the backoff off
  (`BackoffsAreWaitedOutExactlyWhenAttemptsFit`).
- infra/repositories/queue/job_repository.go:214-219 says that a job that reliably kills its worker still
  gets parked. A job is parked by a worker's report of a failure and by nothing else, so one whose
  attempts all end in a crash never is (`ParkedExactlyByAReport`, `CrashLoopNeverParks`).
- An expired idempotency key is revived without asking whether its lease still runs, and a failed
  lookup drops the claim so that the next retry does not look. Without the unique index on orders
  either would make a second order. With it, a retry after pruning is refused for its own order. And a
  request that loses the race for a key is told that the key does not exist when it finds no row, which
  happens, and only if somebody deleted it between two of its statements (`MissingMeansDeleted`,
  `ALoserIsToldItsKeyIsMissing`).
- An accrual replayed under other terms adds a second entry exactly when the first split was one entry
  and the second is two (`ReplayUnderOtherTerms`). With the terms frozen, as domain/ledger/accrual.go
  asks, replays add nothing.
- Accessible seats are suggested under a row and a seat label, which say nothing of the section, for a room
  of any number of sections. Every mark handed out is kept exactly when the chairs it came to differ in
  their labels (`NothingIsOverwrittenExactlyWhenLabelsDiffer`). Two sections lettered from A, as sections are
  unless asked otherwise, lose marks and stay short with chairs to spare (`SectionsLetteredAlike`); what is
  proved of marked rooms is proved of rooms whose labels differ.
- A lettered first row is accepted when it is any run of consecutive row letters, and is then printed as
  asked for exactly when it is one letter: "JK" starts at J (`FirstRowIsAnyRunOfLetters`).

## Model

| member | source | states |
|---|---|---|
| Basket.NormalizeSeatIDs | domain/seating/event_seat.go:119-135 | the result is the one strictly sorted listing of the trimmed, non-blank ids |
| Basket.NormalizeItems | domain/order/order.go:485-550 | the loop with its maps computes `Normalized`: the first fault in line order, or the canonical basket if it is non-empty and within both caps, sums in 64 bits; `AcceptedExactlyWhen` says of the raw lines when that is |
| BasketTheorems.NormalizationIgnoresLineOrder | domain/order/order.go:455-550 | every permutation of the lines is accepted or refused alike, with the same result when accepted |
| BasketTheorems.ShapeOfTheResult | domain/order/order.go:503-548 | one line per tier asked for, tiers strictly rising, chairs the strictly sorted union of those asked for with quantity equal to their number |
| BasketTheorems.CountedQuantityIsConserved | domain/order/order.go:519-530 | a counted line's quantity is the sum of the positive quantities asked for, up to a multiple of 2^64 that is zero when the sum fits |
| BasketTheorems.CapHoldsExactlyWithoutOverflow | domain/order/order.go:532-541 | an accepted basket is within ten tickets if and only if the tickets asked for fit in an int64 |
| BasketTheorems.IdempotentExactlyWhenPositive | domain/order/order.go:485-550 | normalising an accepted basket again gives it back if and only if, for every tier asked for without naming chairs, the 64-bit sum of the positive quantities asked for is positive |
| BasketTheorems.NormalFormsStand | domain/order/order.go:485-550 | a basket of distinct trimmed tiers in rising order, with positive counts or rising distinct chairs, within both caps, is left as it is |
| BasketTheorems.OverflowSlipsPastTheCap | domain/order/order.go:532-541 | three lines whose sum wraps are accepted as an order for three |
| BasketTheorems.OverflowBreaksIdempotence | domain/order/order.go:532-541 | three lines whose sum wraps to minus one are accepted, and refused the second time |
| BasketAcceptance.AcceptedExactlyWhen | domain/order/order.go:485-550 | a basket is accepted if and only if no trimmed tier id is blank, every line naming chairs has a count not above zero or equal to its distinct chairs, no tier is bought both ways, something is bought, at most ten tiers are, and the tickets counted plus the distinct chairs are at most ten in 64 bits |
| BasketAcceptance.RefusedForTheFirstFault | domain/order/order.go:485-525 | the first line to break one of these decides the error, by which it breaks first |
| BasketAcceptance.SoundLinesAre | domain/order/order.go:532-550 | lines without such a fault are refused only for buying nothing, more than ten tiers, or more than ten tickets in 64 bits, in this order |
| BasketAcceptance.CountsBesideChairsAreDerived | domain/order/order.go:498-507 | in an accepted basket the count beside chairs may be replaced by zero, by anything negative or by the number of distinct chairs, and the answer is the same |
| BasketAcceptance.TicketsAre | domain/order/order.go:485-550 | the tickets asked for are the positive counts of the lines without chairs plus one for each distinct chair of a tier |
| Locks.CheckoutScriptRises | usecases/checkout/service.go:286-366 | the manifest's shared lock, the buyer's and the stock locks of any normalised basket are taken in one global order |
| Locks.NoCircularWait | domain/order/order.go:543-548 | among any number of transactions whose locks come in the order, those had already and those taken without waiting apart, some unfinished one can advance, however far each has got |
| Locks.EveryoneCanFinish | usecases/checkout/service.go:331-366 | from any such state a schedule exists under which all of them commit |
| Locks.PlansNeverDeadlock | usecases/checkout/service.go:286-366 | any number of checkouts, cancellations, single expiries, payments in time, refunds, edits and redrawn areas, with late settlements and sweeps that keep the order, always have one that can advance |
| Locks.LateRises | usecases/payment/service.go:1114-1155 | a late settlement with chairs in its first tier at most takes its locks in the order |
| LockTheorems.LateSettlementIsTrappedExactly | usecases/payment/service.go:1114-1211 | for every normalised basket, a checkout and a schedule exist after which neither it nor the late settlement can advance if and only if a tier after the first has chairs |
| LockTheorems.OrderlyIsNeverTrapped | usecases/checkout/service.go:331-366 | no checkout by any schedule traps a transaction that takes its locks in the order |
| LockTheorems.CrossedScripts | usecases/checkout/service.go:331-366 | two transactions each of which comes to want a lock the other has by then can be scheduled into waiting for each other |
| LockTheorems.SweepIsTrappedExactly | usecases/checkout/service.go:741-784 | for any list of orders, a checkout and a schedule exist that trap their sweep if and only if some order names a tier, for the first time in the sweep, after one that does not precede it |
| LockTheorems.ApartMeansOneAfterTheOther | usecases/checkout/service.go:741-784 | for orders that share no tier that is when some order's last tier does not precede the next one's first |
| LockTheorems.ASharedTierIsNoTrap | usecases/checkout/service.go:741-784 | two orders of one tier are swept without any checkout being able to trap the sweep |
| Orders.Order.Apply | domain/order/order.go:769-800 | the answer and the whole row are those of the transition table; timestamps are set once; a refusal or a repeat changes nothing |
| Orders.Order.Confirm | domain/order/order.go:685-725 | the first press extends the hold and never shortens it, later ones only correct details, a hold that is gone refuses |
| Orders.AtMostThreeChanges | domain/order/order.go:737-800 | any story told to one order changes its status at most three times |
| Orders.TimestampsAreWrittenOnce | domain/order/order.go:785-798 | over any story the first payment and the first closing dates are kept, and lines, event and hold never change |
| Orders.ConfirmExtendsOnce | domain/order/order.go:685-725 | after any number of presses the window is what the first press made it, never earlier than before |
| Tickets.Ticket.Apply | domain/ticket/ticket.go:137-164 | a form is refused for exactly these faults, with the row untouched; otherwise quantity and status are written, the counters are not, and they fit the new quantity |
| Tickets.Ticket.ChangeStatus | domain/ticket/ticket.go:167-179 | refused exactly when putting on sale a tier with nothing left |
| SalesInvariant.OpeningIsValid | cmd/loadtest/main.go:965-998 | an office with nothing sold satisfies the invariant |
| SalesInvariant.ReseatingKeepsChairs | domain/seating/repository.go:13-45 | when an order changes hands every chair is still held by one pending order that names it, owned by one paid order that names it, or nobody's |
| SalesInvariant.RetallyingKeepsTallies | domain/ticket/repository.go:39-53 | when an order changes hands each tier's counters are still the sums over the orders and still within its quantity |
| SalesSteps.TurningKeepsInv | usecases/payment/service.go:874-990 | a permitted change of status, with the stock, chairs and admissions that move with it, keeps the invariant |
| SalesSteps.StartingKeepsInv | usecases/checkout/service.go:212-440 | a checkout of any basket keeps it |
| SalesSteps.SettlingKeepsInv | usecases/payment/service.go:792-1034 | any news about any order keeps it |
| SalesSteps.OperatorKeepsInv | infra/repositories/ticket/ticket_repository.go:68-93 | edits decided on stale copies, areas redrawn, chairs blocked and unblocked keep it |
| SalesSteps.StepKeepsInv | cmd/loadtest/main.go:965-998 | every transaction keeps it |
| SalesSteps.EveryRunKeepsInv | cmd/loadtest/main.go:965-998 | every interleaving keeps it |
| SalesSteps.ReissuingChangesNothing | usecases/payment/service.go:581-637 | issuing again for a paid order of a reachable state mints nothing |
| SalesTheorems.CountersNeverDrift | cmd/loadtest/main.go:971-998 | after any run each tier's reserved is the quantity on pending orders, sold the quantity on paid ones, both are natural and together within quantity |
| SalesTheorems.NoChairIsSoldTwice | domain/seating/repository.go:13-45 | after any run no two pending or paid orders name one chair |
| SalesTheorems.CancellingUndoesPlacing | usecases/checkout/service.go:703-733 | placing an order and cancelling it leaves tiers, chairs and admissions exactly as they were |
| SalesTheorems.LatePaymentIsHonoured | usecases/payment/service.go:848-928 | a payment on a lapsed order whose chairs and stock are free makes it paid, owning its chairs, counted as sold, with its tickets minted |
| SalesTheorems.LatePaymentIsOwed | usecases/payment/service.go:848-868 | the same payment otherwise marks the refund owed and changes nothing else in any table |
| SalesTheorems.AtMostThreeStatusChanges | domain/order/order.go:743-755 | over any run an order that exists changes status at most three times |
| SalesTheorems.RedeliveryChangesNothing | usecases/payment/service.go:889-899 | news that once moved an order changes nothing at all when delivered again, after anything else happened |
| SalesOutcomes.NewsMovesExactlyThese | domain/order/order.go:827-847 | a payment moves a pending or lapsed order, a rejection or a withdrawn charge a pending one, a refund or a chargeback a paid one or one owed a refund; all other news changes nothing in any table |
| SalesOutcomes.APaymentInTimeSells | usecases/payment/service.go:902-936 | a pending order paid is paid at that instant, its tickets go from reserved to sold, its chairs are its own, its credentials are minted unused after those there were, and nothing else changes |
| SalesOutcomes.ARefundTakesEverythingBack | usecases/payment/service.go:962-990 | a paid order refunded or charged back is refunded: each tier's sold falls by what it bought with reserved unchanged, every chair it named is free and nobody's, every admission of it is void, and nothing else changes |
| SalesOutcomes.AnOwedRefundIsPaid | usecases/payment/service.go:962-990 | an order owed a refund becomes refunded when it is paid back, and tiers, chairs and admissions do not change |
| SalesOutcomes.ARejectionGivesBack | usecases/payment/service.go:956-961 | a pending order rejected is failed, and one whose charge is withdrawn expired: what it reserved and its chairs are given back, and nothing else changes |
| SalesOutcomes.RetakingNeeds | usecases/payment/service.go:1114-1211 | a late payment finds everything if and only if each chair named is free in its tier and event and each tier is on sale with the whole demand left in it and in its area |
| SalesOutcomes.CancellingIs | usecases/checkout/service.go:703-733 | cancelling gives a pending order's stock and chairs back, and changes nothing of any other |
| SalesOutcomes.ExpiringIs | usecases/checkout/service.go:791-830 | an expiry does the same from the instant the hold ends, and changes nothing before it or of an order no longer pending |
| SalesOutcomes.PressingIs | usecases/checkout/service.go:462-520 | a valid form confirms a pending order before its hold ends, once, and leaves it the later of the two windows; any other changes nothing |
| SalesOutcomes.EditingIs | usecases/ticket/service.go:131-158 | an edit writes quantity and status if and only if the form is whole and the quantity covers what was seen taken and what is taken by now, and changes nothing else |
| SalesOutcomes.RelistingIs | usecases/ticket/service.go:160-177 | a change of status writes the copy's quantity unless the tier was seen with nothing left and is put on sale, or more is taken by now than that quantity |
| SalesOutcomes.BlockingIs | infra/repositories/seating/seat_repository.go:259-292 | free chairs of the event named, blanks trimmed, go off sale and blocked ones come back, and no other chair or table changes |
| StartOutcomes.StartingIs | usecases/checkout/service.go:212-440 | a basket whose every line is of one event, on sale, left in its tier and area, and seated in free chairs if and only if its tier has chairs, ten tickets at most, on a valid form, opens one order for exactly that, pending until the cart's window or the confirmed one ends, with its tickets reserved and its chairs held; any other changes nothing |
| SeatTheorems.ChairsAndCountersNeverDrift | domain/seating/event_seat.go:151-168 | after any run a seated tier's held chairs number its reserved and its sold chairs its sold |
| SeatTheorems.ChairsAreConserved | domain/seating/event_seat.go:151-168 | after any run the four statuses sum to the chairs the tier opened with, and to its quantity if and only if the last accepted write of that was that number |
| SeatTheorems.AnEditOutgrowsTheRoom | usecases/ticket/service.go:131-177 | after any accepted edit or change of status of a tier the statuses sum to its quantity if and only if the quantity written is the number of its chairs |
| DoorTheorems.MintedCounts | domain/admission/repository.go:95-104 | an order's lines are worth one credential per ticket |
| DoorTheorems.MintedNumbers | infra/repositories/admission/admission_repository.go:85-130 | a tier's credentials are numbered from one to how many of it were bought |
| DoorTheorems.MintedAreDistinct | infra/repositories/admission/admission_repository.go:85-130 | no two credentials of an order share a tier and a number |
| DoorTheorems.MintedFromALine | infra/repositories/admission/admission_repository.go:85-130 | every credential is one of a line's: of its tier, and for its chair if it names one |
| DoorTheorems.EveryLineIsMinted | infra/repositories/admission/admission_repository.go:85-130 | every line that buys anything has such a credential, so no chair bought goes without its ticket |
| DoorTheorems.AttendanceCountsEntries | domain/admission/admission.go:176-208 | over any run the tickets of an order with an entry date are those it had plus the scans that let somebody in |
| DoorTheorems.NoMoreEntriesThanTickets | domain/admission/repository.go:12-53 | after any run an order that was ever paid has exactly one admission per ticket and any other none, and entries never exceed them |
| DoorTheorems.NobodyEntersOnARefund | domain/admission/admission.go:199-208 | once an order is refunded no scan on it succeeds, whatever follows |
| BoxOffice.Database.Reserve | infra/repositories/ticket/ticket_stock.go:24-54 | one conditional update: stock is taken exactly when on sale, within quantity and within the bound area, and only of that tier |
| BoxOffice.Database.Shift | infra/repositories/ticket/ticket_stock.go:57-118 | release, commit and release-sold move what is there and refuse, changing nothing, what is not |
| BoxOffice.Database.Claim | infra/repositories/seating/seat_repository.go:57-123 | takes exactly the free chairs of the request, and reports exactly the others |
| BoxOffice.Database.ReleaseForOrder | infra/repositories/seating/seat_repository.go:130-142 | frees exactly the chairs the order holds |
| BoxOffice.Database.CommitForOrder | infra/repositories/seating/seat_repository.go:150-162 | turns exactly the chairs the order holds into sold ones |
| BoxOffice.Database.ReleaseSoldForOrder | infra/repositories/seating/seat_repository.go:170-182 | frees exactly the chairs the order owns |
| BoxOffice.Database.Block | infra/repositories/seating/seat_repository.go:259-274 | takes exactly the free chairs named off sale, and keeps the invariant |
| BoxOffice.Database.Unblock | infra/repositories/seating/seat_repository.go:277-292 | puts exactly the blocked chairs named back, and keeps the invariant |
| BoxOffice.Database.IssueForOrder | infra/repositories/admission/admission_repository.go:55-168 | mints one numbered admission per ticket for an order that has none, and nothing for one that has |
| BoxOffice.Mint | infra/repositories/admission/admission_repository.go:85-130 | the nested loops with their map of sequences list exactly the credentials the lines are worth |
| BoxOffice.Database.VoidForOrder | infra/repositories/admission/admission_repository.go:215-228 | withdraws every admission of the order not withdrawn already, and no other |
| BoxOffice.Database.Admit | infra/repositories/admission/admission_repository.go:194-208 | lets in exactly on an issued ticket, which is then used |
| BoxOffice.GroupSeats | usecases/payment/service.go:1166-1184 | an order's seats by tier, each tier's in line order, no seated tier left out |
| BoxOffice.Database.ReclaimSeats | usecases/payment/service.go:1165-1211 | takes back every chair the order names if all are free, otherwise leaves every chair as it was |
| BoxOffice.Database.ReserveLines | usecases/payment/service.go:1125-1153 | takes every line's stock if each tier can give its whole demand, otherwise gives back what it took |
| BoxOffice.Database.ReserveAll | usecases/payment/service.go:1114-1155 | all of a lapsed order's chairs and stock are retaken, or tiers and chairs are exactly as before |
| BoxOffice.Database.Fulfil | usecases/payment/service.go:902-936 | commits stock and chairs and mints tickets, as the paid step does |
| BoxOffice.Database.LetGo | usecases/payment/service.go:1213-1225 | gives back a closed order's stock and chairs, as the closing step does |
| BoxOffice.Database.TakeBack | usecases/payment/service.go:962-990 | a refund returns stock and chairs only of an order that was paid, and withdraws its tickets |
| BoxOffice.Database.PutBack | usecases/payment/service.go:874-899 | stock retaken for a payment that moves nothing goes back: tiers and chairs are as before |
| BoxOffice.Database.Judge | usecases/payment/service.go:848-868 | late payments retake the stock or become a refund owed, decided by whether everything was still there |
| BoxOffice.Database.Settle | usecases/payment/service.go:792-1034 | the whole settlement computes the step `Settled` and keeps the invariant; no statement inside it can refuse |
| BoxOffice.Database.CancelOrder | usecases/checkout/service.go:703-733 | computes `Applied` with the cancelled status; cancelling twice succeeds and changes nothing |
| BoxOffice.Database.ExpireHold | usecases/checkout/service.go:791-830 | expires exactly a pending order whose hold has lapsed |
| BoxOffice.Database.ClaimExpired | infra/repositories/order/order_repository.go:220-260 | flips exactly the lapsed orders among those it locked, each once |
| BoxOffice.Database.ExpireHolds | usecases/checkout/service.go:741-784 | claiming the batch and then releasing order by order computes the same state as expiring one order after the other |
| BoxOffice.Database.ConfirmOrder | usecases/checkout/service.go:462-520 | computes `Pressed`: a lapsed hold is refused untouched |
| BoxOffice.Database.EditTier | usecases/ticket/service.go:131-158 | computes `Edited`: decided on a stale copy, it never writes the counters and never breaks the invariant |
| BoxOffice.Database.ChangeTierStatus | usecases/ticket/service.go:160-177 | computes `Relisted`, writing the stale quantity back only if the stored counters fit it |
| BoxOffice.Database.UpdateTier | infra/repositories/ticket/ticket_repository.go:71-93 | the editable columns are written unless the table's check on the stored counters refuses |
| BoxOffice.Database.Backfill | usecases/payment/service.go:581-637 | computes `Reissued` for a paid order |
| BoxOffice.Database.ReadTiers | usecases/checkout/service.go:257-285 | passes exactly when every tier exists, is of one event and can reserve |
| BoxOffice.Database.RequireChairs | usecases/checkout/service.go:306-322 | passes exactly when every tier that has chairs is bought by naming them |
| BoxOffice.Database.TakeItem | usecases/checkout/service.go:341-366 | takes one line's chairs and stock exactly when all its chairs are free and the tier can give its quantity |
| BoxOffice.Database.TakeBasket | usecases/checkout/service.go:331-366 | succeeds exactly when every chair is free and every tier has room for the whole order, and then holds exactly those |
| BoxOffice.Database.ExpandLines | usecases/checkout/seating.go:94-126 | one row per chair of a seated line, one row per counted line, in basket order |
| BoxOffice.Database.OpenOrder | usecases/checkout/service.go:373-408 | opens a pending order, pressed at once if asked, exactly when within the cap and the form is valid |
| BoxOffice.Database.StartOrder | usecases/checkout/service.go:212-440 | computes `Started`: the whole basket under a new order, or every table as it was |
| StockMoves.RetakingIsReseating | usecases/payment/service.go:1165-1211 | claiming a lapsed order's chairs and committing them is making it their owner |
| StockMoves.OwnStockIsCovered | domain/ticket/repository.go:39-53 | in every reachable state an order's own stock is there to be released, committed or returned |
| StartMoves.RoomIsEachTier | usecases/checkout/service.go:341-366 | there is room for the expanded order if and only if each tier can give its basket line's quantity |
| JobLedger.JobTable.Enqueue | infra/repositories/queue/job_repository.go:46-94 | a row is added, as it was asked for, if and only if the key is blank or no waiting or running job has it; otherwise that job stays, flagged if it is running |
| JobLedger.JobTable.ClaimByID | infra/repositories/queue/job_repository.go:141-160 | claims if and only if the row was waiting with its time come; the row is then running, locked now, one attempt further and otherwise as it was |
| JobLedger.JobTable.Claim | infra/repositories/queue/job_repository.go:101-134 | the rows claimed were each waiting with their time come, are locked in turn, none twice, and no other row changes; none of those looked at is passed over, and it looks on until it has its limit |
| JobLedger.JobTable.Complete | infra/repositories/queue/job_repository.go:166-187 | done, or straight back to waiting with fresh attempts if a duplicate arrived meanwhile |
| JobLedger.JobTable.Retry | infra/repositories/queue/job_repository.go:191-201 | back to waiting at the time given, the flag cleared |
| JobLedger.JobTable.Kill | infra/repositories/queue/job_repository.go:203-212 | parked dead, unlocked |
| JobLedger.JobTable.ReclaimStale | infra/repositories/queue/job_repository.go:220-235 | exactly the running jobs locked before the window wait again |
| JobLedger.JobTable.Record | usecases/queue/worker.go:269-344 | success completes, a permanent failure or the last attempt parks, any other failure retries |
| JobLedger.RunKeepsInv | domain/queue/queue.go:220-246 | when no attempt outlasts the window every run of enqueues, claims, crashes, sweeps and answers keeps the invariant |
| JobLedger.InvKeepsPromises | domain/queue/queue.go:121-129 | the invariant gives: no announcement lost, no two attempts at one job, one open job per key |
| JobLedger.PromisesHoldExactlyWhenAttemptsFit | domain/queue/queue.go:121-129 | over all runs those three hold if and only if an attempt cannot last longer than the stale window |
| JobLedger.LateAnswerBuriesTheNews | infra/repositories/queue/job_repository.go:166-187 | for any windows the other way round, a run in which a late answer marks newer work done and it is lost |
| JobLedger.NewWorker | usecases/queue/worker.go:116-137 | the stale window the constructor picks is longer than the handler's limit |
| JobLedger.TheGuardForgetsTheBookkeeping | usecases/queue/worker.go:116-137 | with the ten seconds for recording counted, the promises fail exactly for limits strictly between 290 and 300 seconds |
| JobSchedule.AttemptsStartExactlyWhenDue | infra/repositories/queue/job_repository.go:101-160 | over any run, whatever the windows, an attempt at a job starts if and only if it is claimed while waiting with its time come |
| JobSchedule.AnAppointmentIsKept | domain/queue/queue.go:117-119 | when attempts fit the stale window, no attempt at a job scheduled for later starts, over any run, before the time it was scheduled for |
| JobSchedule.BackoffsAreWaitedOutExactlyWhenAttemptsFit | usecases/queue/worker.go:269-344 | over all runs no attempt at a job that failed at t with delay d starts before t + d, if and only if an attempt cannot last longer than the stale window |
| JobSchedule.ALateReportCallsOffABackoff | usecases/queue/worker.go:269-344 | for any windows the other way round, a run in which another attempt's late report has the job run again before its delay is over |
| JobLedger.ParkedExactlyByAReport | usecases/queue/worker.go:269-344 | a step makes a job dead if and only if it is the report of a permanent failure, or of a failure with no attempts left, of an attempt at that job |
| JobLedger.CrashLoopNeverParks | infra/repositories/queue/job_repository.go:214-235 | in every run in which no attempt at a job reports back, by crashing or by being given up, that job is not parked |
| JobLedger.AsManyCrashesAsYouLike | infra/repositories/queue/job_repository.go:214-235 | for every n there is such a run after which the job has had n attempts and waits for another |
| JobLedger.Backoff | domain/queue/queue.go:147-158 | the loop yields five seconds doubled attempts minus one times, at most five minutes |
| JobLedger.Jitter | domain/queue/queue.go:205-217 | only ever added, at most half the delay and at most thirty seconds |
| JobLedger.RetryDelay | domain/queue/queue.go:191-196 | a provider's own pacing is never undercut, and neither is the curve |
| KeyRaces.KeyStore.Begin | infra/repositories/idempotency/idempotency_repository.go:36-138 | whatever happens to the row between its statements, it wins only with the key in its name, loses leaving the row as others left it and told in flight if and only if that row is unfinished with its own hash and mismatch if and only if the hash differs, misses the key only if somebody deleted it, and undisturbed takes a new or an expired key for a day, a lapsed claim of its own hash for a lease, and nothing else |
| KeyRaces.UndisturbedBeginIsAtomic | infra/repositories/idempotency/idempotency_repository.go:36-138 | with no other step between its statements `Begin` is one atomic step: new, revived, taken over, or told of the row that is there |
| KeyRaces.RacersHaveOneWinner | domain/idempotency/idempotency.go:100-116 | of any number of requests starting within one lease of each other at most one wins the key, however their statements interleave with each other and with anything but a deletion of the row |
| KeyRaces.ALaterWinnerIsALeaseLater | domain/idempotency/idempotency.go:100-116 | after any win, over any interleaving without a deletion, a second winner read its clock no earlier than the end of the first one's lease or of the key's life |
| KeyRaces.LosersAreToldWhatIsThere | infra/repositories/idempotency/idempotency_repository.go:63-138 | a statement that does not win changes nothing, and an answer is replay, in flight, mismatch or missing if and only if the row then is finished, unfinished, of another hash or gone |
| KeyRaces.ARetryIsNeverAMismatch | delivery/http/httpx/idempotency.go:147-167 | over any interleaving without a deletion, while a winner's lease and its key's life last, whoever ends `Begin` with the same hash is told in flight, or the stored response once there is one, and whoever has another hash a mismatch |
| KeyRaces.MissingMeansDeleted | infra/repositories/idempotency/idempotency_repository.go:63-138 | over any run, a request told its key does not exist had the row deleted between the INSERT it lost and the row it read |
| KeyRaces.ALoserIsToldItsKeyIsMissing | infra/repositories/idempotency/idempotency_repository.go:162-169 | a run in which everybody ends in time and a release lands between a lost INSERT and its SELECT |
| IdempotencyKeys.OneOrderByLease | domain/idempotency/idempotency.go:72-116 | with the index or without it, when requests end within lease and life and look first after a take-over, one key makes at most one order between prunings and all replays of one life return one response, however the statements of `Begin` interleave |
| IdempotencyKeys.CollisionsNeedAPruning | delivery/http/checkout/handler.go:49-84 | in such runs with the index, a request can find an order in its way only if the key was pruned after that order |
| KeyRaces.ALeaseAcrossTheEndOfLife | infra/repositories/idempotency/idempotency_repository.go:36-138 | a run in which two requests, both within their leases, make two orders across the end of the key's life |
| KeyRaces.AFailedLookForgets | delivery/http/httpx/idempotency.go:129-225 | a run in which a failed lookup releases the claim and the next retry makes a second order |
| KeyRaces.APrunedKeyIsRefusedItsOwnOrder | delivery/http/checkout/handler.go:110-139 | a well-behaved run in which a retry after pruning is refused for the order it made before |
| BankingCalendar.AddBusinessDays | domain/ledger/calendar.go:81-95 | the loop lands on the n-th open day after the start at the same time of day, and returns the start itself for none |
| BankingCalendar.LandsExactlyWhenEnough | domain/ledger/calendar.go:81-95 | a landing day exists if and only if enough open days remain ahead, which is when the loop ends |
| BankingCalendar.LandsOnce | domain/ledger/calendar.go:81-95 | there is only one such day |
| BankingCalendar.WalksAdd | domain/ledger/calendar.go:70-95 | walking a days and then b is walking a + b |
| BankingCalendar.LandsStrictlyLater | domain/ledger/calendar.go:81-95 | n banking days are at least n days |
| BankingCalendar.FiveAreSeven | domain/ledger/calendar.go:50-95 | without holidays 5k banking days from a weekday are 7k days and no other number |
| BankingCalendar.WeekendsAre | domain/ledger/calendar.go:59-68 | counted from the Thursday days are numbered from, the days closed every week are the third and the fourth of every seven |
| BankingCalendar.WeekendsNeverRunOut | domain/ledger/calendar.go:50-95 | without holidays the walk always ends |
| OrganiserLedger.Accrue | domain/ledger/accrual.go:112-153 | refuses exactly the unusable sales; otherwise what is not withheld is a sale due on the banking day the terms name, strictly after the event, and what is withheld is a reserve available exactly the hold later |
| OrganiserLedger.ReserveIsASlice | domain/ledger/accrual.go:57-69 | the reserve is the exact rate rounded down and never more than the sale |
| OrganiserLedger.BatchIsTheFace | domain/ledger/accrual.go:112-153 | the entries are positive and sum to the face value, two of them exactly when something is held back and something is not |
| OrganiserLedger.TheReserveIsHeld | domain/ledger/accrual.go:112-153 | over any run, replays included, an order adds at most its face less its reserve to the available balance before its hold ends, and nothing before it settles |
| OrganiserLedger.EachEntryIsInItsPart | domain/ledger/ledger.go:136-174 | an entry is available from its own instant on, and until then held if it is a reserve and pending if not |
| OrganiserLedger.EarnedIsTheFace | domain/ledger/repository.go:27-65 | over any run, replays included, an order has accrued its face value or nothing, and reversals never exceed it |
| OrganiserLedger.PartsAreTheWhole | domain/ledger/ledger.go:160-174 | available, pending and reserved sum to the total at every instant |
| OrganiserLedger.AvailableIsWithinTheClaim | domain/ledger/ledger.go:136-174 | over any run available never exceeds the total, now or later |
| OrganiserLedger.ARefundedOrderAddsNothing | domain/ledger/accrual.go:155-187 | at every later instant an order adds at most what is outstanding on it, so nothing positive once fully refunded |
| OrganiserLedger.RefundedForGood | domain/ledger/accrual.go:155-187 | once an order is fully refunded nothing is outstanding on it after any further steps, and it adds nothing at any later instant |
| OrganiserLedger.APayoutKeepsTheClaim | domain/ledger/ledger.go:136-174 | paying out no more than what is available leaves the total non-negative |
| OrganiserLedger.ReplayUnderOtherTerms | usecases/payout/service.go:186-206 | an accrual replayed under other terms adds to the first exactly when that was one entry and the second is two |
| OrganiserLedger.BalanceOf | domain/ledger/ledger.go:160-174 | the loop computes each part of one organiser's position and a total that is their sum |
| OrganiserLedger.LedgerTable.Append | infra/repositories/ledger/ledger_repository.go:31-55 | refuses the batch if any entry has no organiser, no amount or the wrong sign for its kind, otherwise adds exactly those whose id is new |
| OrganiserLedger.LedgerTable.AccruedOn | infra/repositories/ledger/ledger_repository.go:97-112 | the sums of an order's credits and of its debits |
| OrganiserLedger.LedgerTable.ReverseAll | usecases/payout/service.go:110-140 | takes back, under a fresh id, all that is outstanding and leaves nothing outstanding; with nothing outstanding or a refusal nothing changes |
| AdmissionCode.CheckCharacter | domain/admission/code.go:199-211 | the loop computes the position-weighted sum modulo the prime |
| AdmissionCode.ElevenWeights | domain/admission/code.go:199-211 | the weights are one to eleven, in the order the characters are printed |
| AdmissionCode.AlphabetIsPrime | domain/admission/code.go:28-50 | the alphabet has thirty-one characters, and nothing divides that |
| AdmissionCode.SubstitutionsAreCaught | domain/admission/code.go:175-198 | changing any one character of a code to another of the alphabet makes it invalid |
| AdmissionCode.TranspositionsAreCaught | domain/admission/code.go:175-198 | swapping any two unequal characters of a code, check character included, makes it invalid |
| AdmissionCode.CodesAreFarApart | domain/admission/code.go:175-198 | two different codes differ in at least two positions |
| AdmissionCode.ThirtyTwoIsBlind | domain/admission/code.go:12-40 | with 32 characters a substitution can pass at a position if and only if its weight is even |
| AdmissionCode.ParseCode | domain/admission/code.go:108-150 | the loop with its early exits accepts exactly the strings whose cleaned form is a code, and returns that form |
| AdmissionCode.ParsesExactlyTheSpellings | domain/admission/code.go:108-150 | a code is parsed from a string if and only if that string, trimmed, spells it with separators anywhere and each character in any way it is read |
| AdmissionCode.WaysToWrite | domain/admission/code.go:108-135 | a character of a code is read from itself, from its lower case, 0 from either O, 1 from either I or L or a dotless i, 5 from either S or a long s, and from nothing else |
| AdmissionCode.PassedOver | domain/admission/code.go:108-120 | exactly blanks, tabs, line ends, hyphens, dots and underscores are passed over |
| AdmissionCode.StringRoundTrip | domain/admission/code.go:169-173 | a code parses back from its own text |
| AdmissionCode.Formatted | domain/admission/code.go:153-167 | groups of four with hyphens between |
| AdmissionCode.ThreeGroups | domain/admission/code.go:153-167 | a code of twelve is printed as its three groups of four, hyphens between them |
| AdmissionCode.FormattedRoundTrip | domain/admission/code.go:152-167 | a code parses back from its printed form |
| AdmissionCode.EveryCharacterIsAsLikely | domain/admission/code.go:70-106 | each character of the alphabet comes from exactly eight accepted byte values |
| AdmissionCode.NewCode | domain/admission/code.go:78-106 | from any bytes that suffice the result is a valid code made of the characters they draw |
| Overlap.NewGrid | domain/seating/overlap.go:239-246 | every cell lists exactly its chairs in the order given |
| Overlap.NearIsNextDoor | domain/seating/overlap.go:233-261 | chairs within twelve units of each other are in neighbouring cells, although truncation doubles the cells around zero |
| Overlap.Occupied | domain/seating/overlap.go:248-261 | the nine-cell lookup finds a chair if and only if some chair lies strictly within twelve units |
| Overlap.Meets | domain/seating/overlap.go:163-205 | the grid and shape tests decide exactly whether two footprints meet |
| Overlap.MeetingIs | domain/seating/overlap.go:163-224 | two footprints meet if and only if chairs of both are within reach, or a chair of one is within eleven units of the other's rectangle or in the ellipse eleven units wider each way, or rectangles that are not flat share more than one unit each way |
| Overlap.WithinIs | domain/seating/overlap.go:248-261 | within reach is less than twelve units apart |
| Overlap.MeetIsMutual | domain/seating/overlap.go:163-205 | meeting does not depend on which is asked first |
| Overlap.MovingTheRoom | domain/seating/overlap.go:163-205 | meeting is unchanged by moving both anywhere |
| Overlap.Overlaps | domain/seating/overlap.go:105-127 | reports nothing exactly when no pair meets, otherwise the first pair in list order |
| Overlap.Colliding | domain/seating/overlap.go:134-160 | lists in input order exactly the ids of footprints that meet another |
| Overlap.AnswersAgree | domain/seating/overlap.go:94-160 | nothing is listed as colliding if and only if no pair is reported |
| Overlap.UniqueIdsPaintThemselves | domain/seating/overlap.go:134-160 | with unique ids a footprint is listed if and only if it meets another itself |
| SeatRows.Generate | domain/seating/generator.go:257-375 | the loops produce the block the spec asks for, or the first thing wrong with it |
| SeatRows.BlockIsOrdered | domain/seating/generator.go:257-512 | every block, linear or arc, lists seats in strictly increasing row and seat order |
| SeatRows.LabelsAreDistinct | domain/seating/generator.go:257-512 | no two seats of a block share row and seat label, under either numbering |
| SeatRows.GeneratedBlocks | domain/seating/generator.go:247-375 | of anything `Generate` returns, seats are in order and no two have one kind key |
| SeatLabels.EveryChairIsAsked | domain/seating/generator.go:257-375 | every chair generated is at a place not skipped, in a row named from the first row asked for, numbered as the numbering says, and of the kind its own key was given |
| SeatLabels.EveryPlaceHasItsChair | domain/seating/generator.go:325-375 | every place not skipped has its chair |
| SeatLabels.OutwardFromTheMiddle | domain/seating/generator.go:601-613 | odd and even numbers start at one and two on either side of the middle and go up by two outwards, sequential ones by one from the first chair |
| SeatLabels.GeneratedExactlyWhen | domain/seating/generator.go:257-375 | a block is generated if and only if the section is named, there is a row of chairs, the rows can be named, and the places left are some and of known kinds |
| SeatLabels.RefusedFor | domain/seating/generator.go:257-375 | anything else is refused for the first of these that is wrong |
| SeatRows.LinearBlockCounts | domain/seating/generator.go:257-375 | a linear block has its rows times the positions nobody skipped |
| SeatRows.OddEvenIsOntoExactlyForEvenRows | domain/seating/generator.go:601-613 | odd and even labels are 1 to n exactly for even rows; an odd row skips n and reaches n + 1 |
| SeatRows.FirstRowIsAnyRunOfLetters | domain/seating/generator.go:257-312 | a lettered first row is accepted if and only if it is blank or a run of consecutive row letters, with letters left for every row; and the first row is printed as asked for if and only if that was one letter |
| Accessibility.QuotaIsTheDecrees | domain/seating/generator.go:690-706 | two per cent rounded up to a thousand places, one per cent of the rest after, at least one, never lower for a larger room |
| Accessibility.CheckCompliance | domain/seating/generator.go:660-686 | the loop tallies every kind, an obese seat counting for both, against the quotas of the capacity |
| AccessibleSeats.ReportIs | domain/seating/generator.go:618-686 | a room owes its quota of spaces and of reduced-mobility chairs, a companion to a space, and half the quota rounded down but never nothing of obese chairs; it has as many of each as its chairs are marked, and complies exactly when none is short |
| Accessibility.BackRowSeats | domain/seating/accessibility.go:101-143 | exactly the chairs of the sections' last rows, by section and outward from each row's middle, equally far ones as the room lists them |
| AccessibleSeats.BackIs | domain/seating/accessibility.go:101-117 | a chair is among them if and only if no chair of its section is further back |
| AccessibleSeats.ArrangedIs | domain/seating/accessibility.go:118-143 | each stands before the next by section, or in one section no nearer the mean of its row |
| Accessibility.Claim | domain/seating/accessibility.go:31-60 | the shared cursor gives the next unmarked chair, or none when they have run out |
| Accessibility.SuggestAccessibleSeats | domain/seating/accessibility.go:31-98 | the missing kinds go, in order, to the first unmarked chairs of the back rows taken from the outside in, equally far ones as the room lists them |
| AccessibilityTheorems.CompliantExactlyWhenEnough | domain/seating/accessibility.go:31-143 | after marking, the room is compliant if and only if its back rows had a plain chair for every kind missing |
| AccessibilityTheorems.NoTallyIsLowered | domain/seating/accessibility.go:31-98 | no tally is lowered and no more of a kind is claimed than is missing |
| AccessibilityTheorems.OnlyBackRowsAreMarked | domain/seating/accessibility.go:31-143 | only plain chairs of a section's last row are marked |
| AccessibleSeats.EachChairInTurn | domain/seating/accessibility.go:60-98 | the k-th plain chair come to gets the k-th kind missing: spaces and companions in turn while both are, then the rest of either, then obese, then reduced mobility |
| AccessibleSeats.NothingIsOverwrittenExactlyWhenLabelsDiffer | domain/seating/accessibility.go:31-98 | a suggestion keeps as many marks as it handed out if and only if no two of the chairs it came to share row and seat label |
| AccessibleSeats.SectionsLetteredAlike | domain/seating/accessibility.go:31-98 | a room of two sections lettered alike, with four plain chairs for three kinds missing, is suggested two marks and stays short |
| Pricing.FeeIsTheNearestCentavo | domain/pricing/pricing.go:78-100 | a unit fee is within half a centavo of the exact rate, ties up, at most the price and monotone in it |
| Pricing.New | domain/order/order.go:585-640 | accepts exactly some lines of positive counts and no negative price, at most ten tickets in 64 bits, and derives the totals by 64-bit sums |
| Pricing.ValidatePricing | domain/order/order.go:363-392 | finds an order consistent exactly when nothing is negative, the halves make the total and the lines make the halves |
| Pricing.TotalsWrapOnce | domain/order/order.go:585-640 | the totals of an accepted order are the plain sums reduced once to 64 bits |
| Pricing.AcceptedIsConsistentExactlyUnwrapped | domain/order/order.go:346-392 | an accepted order is consistent if and only if none of the three sums wraps to a negative one |
| Pricing.NothingWrapsInPractice | domain/order/order.go:585-640 | up to nine trillion reais a ticket the totals are the plain sums and the order is consistent |
| Pricing.SplittingALine | domain/pricing/pricing.go:102-136 | one line of n tickets and n lines of one cost the same to the centavo, wrapped or not |
| Pricing.AWrappedOrderIsAcceptedAndRefused | domain/order/order.go:363-392 | two tickets of 2^62 centavos are accepted and then found inconsistent |
| Reais.TheTripKeepsExactly | infra/asaas/money.go:17-35 | whatever each float operation does within its promise, an amount survives the trip if and only if it is below 2^51 centavos |
| Reais.TruncatingLosesACentavo | infra/asaas/money.go:26-35 | with truncation in place of rounding every amount but zero may come back changed |

## Left out

- HTTP routing, authentication, configuration, metrics, notifications, caching, seeds, migrations and the provider's HTTP client: plumbing around the rules proved here.
- Hold limits per buyer, and the checks of a buyer's name, email, document and policies: they are one boolean input of a checkout.
- The charge fields of an order and the order's price columns inside the sale machine: settlement rewrites the first without touching stock, and `Pricing` proves the second on their own.
- The guard that ignores news about a charge that is no longer the order's: news is an input about an order.
- A chair's hold deadline, version, label and block reason; which rows a batched statement happens to return first.
- The checks on a claim's own fields before it reaches the chairs: every claim here carries its order, event, tier and seats.
- Creating tiers and laying chairs out for an event: a run starts from any tiers and any free or blocked chairs.
- Standing areas and boxes beyond the capacity they put on a tier: which of them a line is booked into.
- Failures of the database itself: a transaction that fails is rolled back whole, which is not taking the step. A claim is taken to lock its rows in the order of the ids, and a lock to be granted as soon as nobody has one that excludes it.
- Locks on jobs, payouts, admissions and the index entries of new rows, and those of blocking chairs and of laying out a room.
- Statements of different sale transactions between each other: the sale's interleaving is of whole transactions, so a checkout's unlocked reads of tiers are not separated from its conditional updates, which check again.
- Overflow of the stored counters and of sums of money on the ledger: those integers are unbounded here.
- The ticket's own entity methods, who scanned it, and its code inside the sale machine: `AdmissionCode` proves the codes, and a code is unique by an index that is not part of this model.
- Collisions of the digests that name a sale's ledger entries: derived ids are taken to be distinct.
- Adjustments and the provider's own fees on the ledger, and who starts a payout: a payout is a step that takes at most what is available.
- `RowSpec` positions, rotation, arcs and tables as geometry: an arc's seats per row are given, and only order, labels and counts are stated.
- Floating point in the overlap test and in the distance from a row's middle: exact reals and rationals.
- Time zones other than a fixed offset, and Unicode upper-casing beyond the characters a code or a row letter can contain.
- The random part of a code and of a delay: bytes and draws are inputs, and a stream that suffices is assumed.
- BoxOffice.Database.OpenOrder: the buyer's details and the policy version are one boolean, because none of them touches stock.
- BoxOffice.Database.StartOrder: the limits on what one buyer may hold are not there, so an order this accepts may be refused for them.
- SeatRows.Generate: shape, radius and sweep refusals, seat categories and coordinates are left out, because order, labels and counts do not depend on them.
- Pricing.New: the event, tier count, ticket id and refund policy refusals are left out, because they do not touch the totals; and its one loop over the lines is written as one loop per sum.
- Blank idempotency keys, which are refused before `Begin` reads anything, and the byte encoding of a stored response.
- JobLedger.JobTable.Claim: the types a worker handles and which due rows it sees first are inputs, since locked rows are skipped.
- AccessibilityTheorems.CompliantExactlyWhenEnough: for rooms in which no two chairs share row and seat label; in others `SectionsLetteredAlike` shows it false.
- AccessibilityTheorems.NoTallyIsLowered: for the same rooms, since a shared label marks every chair that has it.
- AccessibilityTheorems.OnlyBackRowsAreMarked: for the same rooms, for the same reason.
- Accessibility.BackRowSeats: neighbouring spaces for companions are not stated, because consecutive picks sit at opposite ends of a row.
- Reais.TheTripKeepsExactly: the only-if half is over all results the standard permits an operation, not over the one result a particular processor gives.
