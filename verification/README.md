# Verification of the booking saga over the per-night slot inventory

This project models how the server takes, pays for, cancels and expires bookings of room types, and proves that, under
the assumptions below, no room type is ever double-booked, whatever runs at the same time and wherever a process stops.
The guarantee is spread over five layers, and so is the model; each layer is proved against the one below.

| layer | files |
|---|---|
| one inventory (a room type on one date): slots, holds, expiry | `InventorySpec.dfy` (what each operation means), `Inventory.dfy` (the class that does it in place) |
| rows: diff-save, unique slots | `HoldTables.dfy`, `SaveProof.dfy`, `Repository.dfy` |
| transactions, statement by statement, under the row lock | `LockProtocol.dfy`, `LockProof.dfy`, `SerialRuns.dfy` |
| the booking aggregate, its fee, its storage | `StayPeriod.dfy`, `BookingSpec.dfy`, `Booking.dfy`, `Names.dfy`, `BookingRepository.dfy`, `BookingTables.dfy` |
| the process manager: Book, Confirm, Cancel, ChangeGuests, ExpireStale, CollectExpired as small-step processes | `Transactions.dfy`, `Saga.dfy`, `SagaInvariant.dfy`, `SagaSteps.dfy`, `SagaSafety.dfy`, `SagaTables.dfy`, `Fees.dfy` |
| the same operations as the sequential programs they are, and the worker's pass | `SagaRuns.dfy`, `Outcomes.dfy`, `Bookings.dfy`, `Service.dfy`, `Worker.dfy` |
| what the assumption about callers is needed for, and runs that break without it | `Scenarios.dfy`, `SagaLimits.dfy`, `Counterexamples.dfy` |
| the availability query | `Search.dfy` |

How the layers meet:

* The class `Inventory` and the tables are both proved against `InventorySpec.Apply`; `InventoryRepository.Repository.Mutate`
  joins them.
* `LockProof` shows that statement-level interleavings of inventory transactions have the effect of whole transactions in
  commit order; `SerialRuns` turns that order into an actual run with one transaction after the other. The saga therefore
  takes one transaction as one step. `SagaTables` ties the two: every run of the saga is matched by such a run of
  statements that commits the same transactions in the same order (`EverySagaRunIsARunOfStatements`), and any run of
  statements that does so ends with exactly the tables of the saga's state (`SagaStatesAreTables`).
* `BookingTables` shows that a booking transaction of the saga is one of `BookingRepository`, and that in every run whose
  calls bring guests as `buildGuests` makes them, every reachable state has tables that store exactly its bookings
  (`ReachableBookingsAreStored`).
* In the saga any number of processes run interleaved with the operator's edits. A step may commit, roll back with an
  error, or commit while its caller sees an error; a process may stop for good at any point; a listing may be stale by
  the time it is used.
* Each method of `Service` proves that it performs a run of the small-step process of the same name (its ghost result
  `run`), so the sequential programs and the interleaved ones are the same programs. A method is given how its
  transactions end: the inventories whose lock cannot be had (`busy`, `lost`), and for each transaction on a booking row
  and each listing whether it commits, rolls back, or commits unseen. So its failure paths are part of its contract.

## Assumptions

1. No Confirm and no Cancel of a booking starts before its Book call has returned (`Saga.CallersWait`); ChangeGuests need
   not wait. Book writes its booking back without reading it again
   (server/internal/booking/app/booking.go:247-251). `SagaLimits.BookOverwritesExactly` says, for any step, exactly when
   it moves a booking back; `BookTakesFromConfirmedExactly` exactly when a step of Book leaves a Confirmed booking without
   a hold; `GuestsAreRestored` exactly when it undoes a ChangeGuests, which waiting callers can lose as well. Without the
   assumption slots are still never oversold (`NeverOversoldWhoeverCalls`), but a booking can be Confirmed without a
   hold, and then a night with one slot can carry two Confirmed bookings:
   `Counterexamples.DoubleBookingWhenCallersDoNotWait` is the run.
2. `uuid.New()` never repeats: identifiers come from a counter that every use advances.
3. Fees, totals and quantities are unbounded integers; the mappers narrow them to `int32`, so the results hold for values
   in that range.
4. Days and instants are integers (UTC).

Three results are conditional because the code is:

* ExpireStale does not look at a booking again after listing it. "Only temporary bookings are expired" therefore holds for
  an uninterrupted pass (`Services.Service.ExpireStale`); `SagaLimits.ExpireStaleDoesNotLookAgain` says what happens
  otherwise, and `Counterexamples.ExpireStaleCancelsAPaidBooking` is a run in which it does. The safety results hold for
  every interleaving.
* A booking is charged the fees its nights were held at only if Book's last save is not rolled back
  (`Fees.TotalIsWhatWasCharged`). If it is, the booking keeps its holds with a total of 0 and can be confirmed:
  `Counterexamples.ConfirmedForNothing` is the run, with callers that wait.
* `ErrQuantityBelowHolds` speaks of the number of holds, but the guard compares with the highest slot in use.
  `InventorySpec.ChangeQuantityIsExact` proves what the guard decides, and `InventorySpec.QuantityGuardMatchesItsMessage`
  exactly when the two agree. The model follows the code.

## Model

| member | source | states |
|---|---|---|
| SagaSafety.NoDoubleBooking | server/internal/booking/app/booking.go:91-172 | In every reachable state of every interleaving, for every room type and night, the Confirmed bookings covering it are at most the quantity on sale, and any two of them have different slots |
| SagaSafety.ConfirmedMeansHeld | server/internal/booking/app/booking.go:110-138 | In every reachable state a Confirmed booking has a hold on exactly the nights of its stay, each Confirmed and without expiry |
| SagaSafety.HoldsFollowTheirBooking | server/internal/inventory/domain/inventory.go:117-155 | In every reachable state a hold belongs to a stored booking covering that night, has an expiry iff it is temporary, and is never Processing or Confirmed under a TemporaryHold booking |
| SagaSafety.ConfirmPositionIsExact | server/internal/booking/app/booking.go:110-127 | While Confirm runs, its position tells for every night whether the hold was moved on; a missing hold on a night already passed means that a Cancel came in between |
| SagaSafety.CancelledIsFinal | server/internal/booking/domain/booking.go:105-121 | Over any stretch of any run room and dates are frozen, the status never goes back, and a Cancelled booking keeps its whole row and never gains a hold |
| SagaSafety.OverlappingStaysAreApart | server/internal/booking/domain/stay_period.go:46-48 | In every reachable state two bookings of one room type that hold every night of their stays, in whatever status, overlap iff on some night they hold different slots; they never hold the same one |
| SagaSafety.EveryReachableStateIsOk | server/internal/booking/app/booking.go:42-297 | The inductive invariant over databases and program counters holds after every run |
| SagaSafety.ActionKeepsInv | server/internal/booking/app/booking.go:91-172 | Every step of every process, every operator edit and every stop keeps the invariant |
| SagaSafety.ConfirmedFitInQuantity | server/internal/inventory/domain/inventory.go:225-236 | Confirmed bookings inject into holds and holds into slots 1..quantity |
| SagaSafety.CollectTakesOnlyExpired | server/internal/inventory/app/service.go:144-160 | In any step of a CollectExpired in any run, however stale the listing it works from, a hold that disappears was temporary and its expiry lay before that process's `now`; all others are unchanged |
| SagaSafety.LiveHoldsAreSpared | server/internal/inventory/app/service.go:144-160 | In any run, up to and including the instant HoldTTL after its Book call, no CollectExpired takes a hold of a booking |
| SagaLimits.BookOverwritesExactly | server/internal/booking/app/booking.go:68-108 | For one step of any process and every booking: the booking moves forward (status never back, a Cancelled row frozen and without new holds) iff the step is not a Book's Hold that succeeds after a cancellation, its save after a change of status, or compensation's save after a different cancellation |
| SagaLimits.GuestsAreRestored | server/internal/booking/app/booking.go:247-251 | Every row Book writes has the guests Book began with, so it changes the stored guests iff they have been changed since |
| SagaLimits.BookTakesFromConfirmedExactly | server/internal/booking/app/booking.go:253-261 | On a database of the invariant, a step of Book leaves some Confirmed booking without a hold on a night of its stay iff compensation gives back a night of a booking that is Confirmed |
| SagaLimits.BookOverwritesWhoeverCameBetween | server/internal/booking/app/booking.go:247-251 | Book's last save of a successful booking moves that booking forward iff nobody else has changed the status since, and always restores the first guests |
| SagaLimits.CompensationOverwritesToo | server/internal/booking/app/booking.go:253-261 | Compensation's last save always leaves the row Cancelled, free of charge, with the first guests, and no hold touched; it undoes a cancellation iff somebody had cancelled with a different outcome, and strands the booking iff somebody had paid for a night, always so if it was Confirmed |
| SagaLimits.NoPassFreesStranded | server/cmd/worker/main.go:98-109 | A Cancelled booking with a hold that is not temporary keeps it through every worker pass |
| SagaLimits.CancelInsideBookIsLost | server/internal/booking/app/booking.go:140-172 | From every reachable world with a Book at its last step: after a Cancel run in full, that step leaves the booking TemporaryHold with no hold on any night |
| SagaLimits.ExpireStaleDoesNotLookAgain | server/internal/booking/app/booking.go:286-287 | After a correct listing, ExpireStale changes a booking that is no longer temporary iff it was paid for since, and then cancels it free of charge |
| SagaLimits.NeverOversoldWhoeverCalls | server/internal/inventory/domain/inventory.go:100-178 | In every run, those of callers that do not wait for Book included, every inventory has distinct slots in 1..quantity and at most quantity holds |
| Counterexamples.DoubleBookingWhenCallersDoNotWait | server/internal/booking/app/booking.go:247-251 | A run of callers that do not wait, ending with two Confirmed bookings on a night with one slot |
| Counterexamples.ConfirmedWithoutAHold | server/internal/booking/app/booking.go:110-138 | The first part of that run: a Confirmed booking that holds nothing |
| Counterexamples.CompensationStrandsAConfirmedBooking | server/internal/booking/app/booking.go:253-261 | A run of callers that do not wait in which compensation cancels a Confirmed booking and leaves its Confirmed hold behind |
| Counterexamples.ExpireStaleCancelsAPaidBooking | server/internal/booking/app/booking.go:274-297 | A run within the assumption in which ExpireStale, listing before a Confirm runs and going on after it, cancels a Confirmed booking |
| Counterexamples.GuestsChangedInsideBookAreLost | server/internal/booking/app/booking.go:174-194 | A run within the assumption in which a ChangeGuests committed inside Book is undone by Book's last save |
| Counterexamples.ConfirmedForNothing | server/internal/booking/app/booking.go:68-89 | A run within the assumption that ends with a Confirmed booking, its hold Confirmed, and a total of 0 although the night has a fee |
| Fees.TotalIsWhatWasCharged | server/internal/booking/app/booking.go:91-108 | Over every run, a booking whose last Book save was kept was charged every night of its stay once, in order, at the fee on sale when it was held, and its total is their sum; any other stored booking has total 0; so the total is the sum of the charges iff that save was kept or they come to nothing |
| Scenarios.CancelRuns | server/internal/booking/app/booking.go:140-172 | On every database of the invariant the small-step Cancel can run to its end, leaving the booking Cancelled with no hold |
| Scenarios.ConfirmRuns | server/internal/booking/app/booking.go:110-138 | For every payable booking the small-step Confirm can run to its end, leaving row and holds Confirmed |
| Scenarios.HeldBookingCanBeConfirmed | server/internal/booking/app/booking.go:110-138 | In every reachable world a TemporaryHold booking that holds every night, and whose Book has returned, can be confirmed, whatever else is running |
| SagaTables.InventoriesAreTheirLog | server/internal/inventory/app/service.go:185-203 | In every reachable state of the saga the inventories are the serial replay of the inventory transactions committed so far, each of which succeeds in it; hold ids are a key over all inventories |
| SagaTables.ReachableStateHasTables | server/db/migrations/000006_create_hold.up.sql:14-15 | Every reachable state of the saga has rows, within all constraints, that represent its inventories |
| SagaTables.EverySagaRunIsARunOfStatements | server/internal/inventory/infra/postgres/repository.go:183-199 | For every run of the saga and every point of it there is a run of statements, never with two transactions under way, that commits the same inventory transactions in the same order, and the tables it leaves are those of the saga's state, within all constraints |
| SagaTables.SagaStatesAreTables | server/internal/inventory/infra/postgres/repository.go:183-199 | Whichever interleaved statements commit those transactions in that order, the committed tables are exactly those of the saga's state |
| SerialRuns.RunsEntry | server/internal/inventory/app/service.go:185-203 | Any transaction that can come next in the serial run can be made to come next by a run of statements, from begin to commit |
| SerialRuns.EveryRunHasASerialRun | server/internal/inventory/app/service.go:185-203 | For every statement-level interleaving there is a run in which never more than one transaction is under way, with the same commits, in the same order, with the same replies, and the very same tables |
| LockProof.InterleavingIsSerial | server/internal/inventory/app/service.go:185-203 | Any statement-level interleaving of any number of transactions, some rolled back anywhere, leaves the very tables that running the committed ones whole in commit order leaves, and explains every committed reply |
| LockProof.RefusalIsSerial | server/internal/inventory/app/service.go:194-203 | What a transaction is refused with, be it the operation's error or an unknown inventory, is what the serial run answers at that point |
| LockProof.OneWriterPerInventory | server/internal/inventory/infra/postgres/repository.go:62-74 | At most one transaction is past its lock on an inventory, and what it loaded is the committed state |
| LockProof.NoStatementIsRefused | server/db/migrations/000006_create_hold.up.sql:14-15 | In every reachable system, after every statement of a save, the unique slots and the other constraints hold, and other inventories are untouched |
| LockProof.EveryReachableSysIsOk | server/internal/inventory/infra/postgres/repository.go:183-199 | The invariant of the lock protocol over every run |
| LockProtocol.TablesAreDetermined | server/internal/inventory/infra/postgres/mapper.go:12-61 | The aggregates determine the rows of both tables completely |
| SaveProof.SaveIsFaithful | server/internal/inventory/infra/postgres/repository.go:76-111 | Whatever the order of rows and holds, reloading after Save gives the aggregate, each single statement keeps the constraints, and no other inventory is touched |
| SaveProof.SaveIsFaithfulExactly | server/db/queries/inventory/hold.sql:1-10 | Because the upsert never rewrites key, booking or slot, the save is faithful iff every hold already stored has the stored key, booking and slot |
| SaveProof.OperationsAreSavable | server/internal/inventory/domain/inventory.go:100-178 | After a load, every aggregate operation stays within that condition |
| HoldTables.RepresentsOnlyOne | server/internal/inventory/infra/postgres/mapper.go:12-35 | Loading is unambiguous, in whatever order holds are listed |
| InventoryRepository.Repository.Mutate | server/internal/inventory/app/service.go:144-203 | One transaction has exactly the effect of the operation on the aggregate that the tables represent; a refused one, and a collection that finds nothing, write nothing |
| InventoryRepository.Repository.Save | server/internal/inventory/infra/postgres/repository.go:76-111 | The loops execute only accepted statements; then the row has the aggregate's fee, quantity and closing, each hold of its list a row with its booking, slot, status and expiry, and there is no other row of it |
| InventoryRepository.Repository.FindForUpdate | server/internal/inventory/infra/postgres/repository.go:62-74 | Loads the aggregate the tables represent, null for an unknown key |
| InventoryRepository.Repository.Add | server/internal/inventory/infra/postgres/repository.go:30-46 | A first registration is stored as an open inventory without holds; a second one is refused and changes nothing |
| InventoryRepository.Repository.ListHolds | server/db/queries/inventory/hold.sql:22-23 | Lists exactly the rows of the inventory, each once |
| InventoryRepository.Repository.ApplyTo | server/internal/inventory/app/service.go:92-113 | The closures given to mutate have the effect, reply and error of the operation |
| InventorySpec.HoldIsExact | server/internal/inventory/domain/inventory.go:100-126 | For an open inventory, new booking and later expiry: sold out iff the hold count equals the quantity, although counts are never compared; otherwise the least unused slot, and no other hold changes |
| InventorySpec.EveryRunStaysValid | server/internal/inventory/domain/inventory.go:41-178 | From Register on, every sequence of calls, failing ones included, keeps slots distinct and in 1..quantity, and the holds within the quantity |
| InventorySpec.ApplyKeepsValid | server/internal/inventory/domain/inventory.go:67-178 | Every operation keeps the invariant |
| InventorySpec.NeverOversold | server/internal/inventory/domain/inventory.go:225-236 | A valid inventory has at most quantity holds, and exactly quantity iff every slot is used |
| InventorySpec.ChangeQuantityIsExact | server/internal/inventory/domain/inventory.go:67-77 | The guard accepts n iff the inventory with quantity n would be valid, which implies n is at least the hold count |
| InventorySpec.QuantityTakesEffect | server/internal/inventory/domain/inventory.go:67-126 | After an accepted ChangeQuantity(n) the next Hold of a new booking succeeds iff the hold count is below n; holds, fee and closing are as before |
| InventorySpec.ClosedUntilReopened | server/internal/inventory/domain/inventory.go:84-126 | From an accepted Close, over every sequence of calls without Reopen, every Hold is refused as closed |
| InventorySpec.OpenUntilClosed | server/internal/inventory/domain/inventory.go:92-126 | From an accepted Reopen, over every sequence of calls without Close, no Hold is refused as closed |
| InventorySpec.FeeTakesEffect | server/internal/inventory/app/service.go:92-113 | From ChangeFee(f), over every sequence of calls without another, every successful Hold answers the fee f |
| InventorySpec.QuantityGuardMatchesItsMessage | server/internal/inventory/domain/inventory.go:238-246 | Guard and hold count agree for every n iff the slots in use have no gap |
| InventorySpec.GapBlocksQuantity | server/internal/inventory/domain/inventory.go:67-77 | A run from Register after which n equals the hold count and is refused |
| InventorySpec.CollectIsAFilter | server/internal/inventory/domain/inventory.go:166-178 | Exactly the temporary holds whose expiry lies before `now` disappear, all others stay as they are, and the answer is how many went |
| InventorySpec.ReleaseUndoesHold | server/internal/inventory/domain/inventory.go:157-164 | Hold, then Release, is the state before |
| InventoryAggregate.Inventory.Register | server/internal/inventory/domain/inventory.go:41-52 | A new inventory is valid and open, holds nothing, and has the quantity and fee given |
| InventoryAggregate.Inventory.VacantSlotNo | server/internal/inventory/domain/inventory.go:225-236 | Returns the least unused slot of 1..quantity, or none iff all are used |
| InventoryAggregate.Inventory.MaxSlotNo | server/internal/inventory/domain/inventory.go:238-246 | Returns the highest slot in use, 0 for none |
| InventoryAggregate.Inventory.IndexOfHold | server/internal/inventory/domain/inventory.go:216-223 | Finds the hold of the booking iff there is one |
| InventoryAggregate.Inventory.Hold | server/internal/inventory/domain/inventory.go:100-126 | Succeeds iff open, the expiry later, the booking not on the list and the list shorter than the quantity; appends the hold on the least unused slot; otherwise the first reason that applies, and no change |
| InventoryAggregate.Inventory.StartPayment | server/internal/inventory/domain/inventory.go:128-139 | Replaces the booking's temporary hold in place by one in Processing without expiry; refuses a missing hold and any other status, with the list unchanged |
| InventoryAggregate.Inventory.Confirm | server/internal/inventory/domain/inventory.go:141-155 | Replaces the booking's Processing hold in place by a Confirmed one, accepts a Confirmed one unchanged; refuses a missing and a temporary hold |
| InventoryAggregate.Inventory.Release | server/internal/inventory/domain/inventory.go:157-164 | Cuts the booking's hold out of the list, keeping the order of the others; refuses a missing one |
| InventoryAggregate.Inventory.CollectExpired | server/internal/inventory/domain/inventory.go:166-178 | What is left of the list is what is not a temporary hold with an expiry before `now`, and the answer is how many were dropped |
| InventoryAggregate.Inventory.ChangeQuantity | server/internal/inventory/domain/inventory.go:67-77 | Sets n iff it is not negative and not below any slot in use, with the right error otherwise |
| InventoryAggregate.Inventory.Close | server/internal/inventory/domain/inventory.go:84-90 | Ends closed; an error iff it was |
| InventoryAggregate.Inventory.Reopen | server/internal/inventory/domain/inventory.go:92-98 | Ends open; an error iff it was |
| InventoryAggregate.Inventory.ChangeFee | server/internal/inventory/domain/inventory.go:79-82 | Sets the fee and nothing else |
| Services.Service.Book | server/internal/booking/app/booking.go:42-89 | Refuses bad input with the first objection in the source's order. Otherwise any row written is for the booker, room type, days and trimmed guest names asked for; success means a temporary booking with a hold until now + HoldTTL on every night and the fee sum, failure the first failing night's error and, when no Release is lost, every inventory as before; and what each failing save leaves. All other bookings are untouched |
| Services.Service.BookAccepted | server/internal/booking/app/booking.go:68-89 | The saga part, for every way its saves can end: on success one hold per night and the sum of the nightly fees; on failure the holds left are exactly those whose Release was lost; the whole is a run of the small-step Book |
| Services.Service.HoldAllDates | server/internal/booking/app/booking.go:91-108 | Succeeds iff every night is bookable, with the fee sum; else stops at the first failing night and compensates |
| Services.Service.Compensate | server/internal/booking/app/booking.go:253-261 | Gives back every night held and stores the booking as Cancelled, ignoring the failure of either |
| Services.Service.BuildGuests | server/internal/booking/app/booking.go:299-309 | Accepts iff every name is valid, and gives each guest its trimmed name under a fresh id |
| Bookings.BuiltGuestsAreNamed | server/internal/booking/app/booking.go:299-309 | The guests carry the input's first names as first and last names as last names, each without the white space around it, under consecutive ids |
| Bookings.BookLeaves | server/internal/booking/app/booking.go:42-108 | Whichever row a Book writes last, it is for the booking asked for with no cancellation fee, its holds are temporary until now + HoldTTL, and no other booking's row or hold changes |
| Bookings.TakenMeaning | server/internal/inventory/domain/inventory.go:100-126 | On each night taken the booking holds the least free slot, temporarily, until now + HoldTTL; all other holds and fields are as before |
| Services.Service.Confirm | server/internal/booking/app/booking.go:110-138 | Succeeds iff both row transactions commit and the booking is temporary, holds every night and gets every lock, and then it is Confirmed with a Confirmed hold without expiry on every night; failing midway it leaves ProcessingPayment and exactly the earlier nights moved, and answers the failure of the night where it stopped; failing at the end, all holds Confirmed; an unknown or no longer temporary booking is refused as such; no other booking is touched |
| Services.Service.PassOverNights | server/internal/booking/app/booking.go:117-126 | One loop of Confirm: all nights moved, or those before the first night without lock or hold |
| Services.Service.ChangeGuests | server/internal/booking/app/booking.go:174-194 | Refuses with the first objection in the source's order; otherwise only this booking's guests change, to the input's names without the white space around them, under fresh ids; a run of the small-step process |
| Services.Service.Cancel | server/internal/booking/app/booking.go:140-172 | From every quiet state the row ends Cancelled with the fee due: for a Confirmed booking cancelled by the guest 0, half or all of the total by the days left (7, 3), 0 for any other reason or status, the stored fee if Cancelled already; that fee is returned, with a failed release too. Its holds are gone on exactly the nights before the first whose lock cannot be had, with all locks granted everywhere; no other booking is touched; when the row transaction fails no hold is |
| Services.Service.ReleaseAll | server/internal/booking/app/booking.go:263-272 | Releases night after night, passing over missing holds, and stops at the first whose lock cannot be had |
| Services.Service.Release | server/internal/booking/infra/adapter.go:57-63 | A missing hold or inventory counts as released |
| Outcomes.CancellingAgain | server/internal/booking/domain/booking.go:105-121 | Cancelling a second time, for any reason at any time, changes nothing, the fee included |
| SagaRuns.StoppedWorldIsQuiet | server/internal/booking/app/booking.go:110-172 | Whatever processes were stopped wherever, the database they leave is one on which these operations are proved |
| Services.Service.ExpireStale | server/internal/booking/app/booking.go:274-297 | A booking that is not TemporaryHold, or created no more than HoldTTL ago, keeps its row and all its holds; without a failure exactly the others are Cancelled, free of charge, and counted, and with all locks granted hold nothing; a row transaction that fails ends it early; each cancelled booking has given back the nights before its first whose lock cannot be had |
| Services.Service.CollectExpired | server/internal/inventory/app/service.go:133-166 | A hold that goes was temporary with an expiry before `now`; without a failure all of these go, over all inventories, and are counted exactly; a failing transaction ends it early, where a failed commit leaves its holds counted; no row changes |
| Services.Service.ListStale | server/db/queries/booking/booking.sql:32-35 | Lists exactly the TemporaryHold bookings created before the given time, each once |
| Services.Service.ListExpired | server/db/queries/inventory/hold.sql:15-20 | Lists exactly the inventories with a temporary hold whose expiry lies before `now`, each once |
| Worker.Collect | server/cmd/worker/main.go:98-114 | Runs both passes whether or not the first fails, with what each did and counted; when nothing fails, exactly a whole pass and both counts |
| Worker.UnpaidBookIsReclaimed | server/cmd/worker/main.go:98-109 | After any run in which Confirm was never called for a booking, however far its Book got and whatever was left unreleased, a pass later than HoldTTL leaves none of its holds, and its row, if stored, Cancelled |
| Worker.AbandonedBookIsReclaimed | server/internal/booking/app/booking.go:274-297 | The same for any reachable state in which the booking's holds are temporary |
| Worker.ExpireStaleAloneIsNotEnough | server/internal/booking/app/booking.go:274-297 | Under the same conditions, after ExpireStale alone a hold of the booking is left iff the booking was Cancelled already and still had one |
| Worker.CollectExpiredAloneIsNotEnough | server/internal/inventory/app/service.go:133-166 | Under the same conditions, after CollectExpired alone the booking is stored and not Cancelled iff it was TemporaryHold |
| Worker.LostReleaseOutlivesExpireStale | server/internal/booking/app/booking.go:253-261 | Book reaches the first case: a lost Release leaves a Cancelled booking with a hold that no ExpireStale removes |
| Worker.CompletedBookOutlivesCollectExpired | server/internal/booking/app/booking.go:42-89 | Book reaches the second case |
| Worker.PassSparesTheRest | server/cmd/worker/main.go:98-109 | A whole pass changes the row of a stored booking iff it is TemporaryHold and was created more than HoldTTL ago, and then it is Cancelled; any other keeps every hold that is not temporary or whose expiry does not lie before `now` |
| Search.ListedIsBookable | server/db/queries/search/search.sql:1-34 | With valid names and a checkin not past, Search lists the room type iff Book's checks pass and every night is bookable, and the listed total is the sum Book accumulates |
| Search.BookWhatSearchLists | server/db/queries/search/search.sql:1-34 | From any quiet database, an uninterrupted Book succeeds iff Search lists the room type, and charges the listed total |
| Search.CountMeansEveryNight | server/db/queries/search/search.sql:31-34 | The count of available dates equals the nights iff every night of the stay is bookable |
| Search.HeldCountIsHoldCount | server/db/queries/search/search.sql:2-13 | Counting joined hold rows counts the holds of the aggregate |
| Search.AvailableIsBookable | server/db/queries/search/search.sql:2-13 | A night passes the counting filter iff a Hold on it would succeed |
| Search.SumIsFeeSum | server/db/queries/search/search.sql:24 | The query's unordered sum is the sum taken night by night |
| Search.SearchRoomTypes | server/db/queries/search/search.sql:1-34 | Answers the query: every listed room type once, with the sum of its fees, cheapest first, and no other |
| Search.FiltersAreExact | server/db/queries/search/search.sql:29-33 | With prefecture and maximal fee the query lists exactly the rows of the unfiltered query in that prefecture and with a total no higher |
| Search.Search | server/internal/search/search.go:41-88 | Refuses bad criteria with the right error; otherwise evaluates the query and passes on every row with the number of nights |
| BookingSpec.EveryRunOfCalls | server/internal/booking/domain/booking.go:94-140 | Over every sequence of calls room and dates stay, the status rank never falls, Cancelled freezes the booking, and the cancellation fee is nonzero only when Cancelled and lies in 0..total |
| BookingSpec.OneCall | server/internal/booking/domain/booking.go:178-202 | A single call changes the status only along the allowed transitions, and makes a fee nonzero only when a guest cancels a Confirmed booking less than seven days ahead |
| BookingSpec.FirstCancelDecides | server/internal/booking/domain/booking.go:105-121 | In every sequence of calls the outcome is that of the first Cancel, whatever its successors' reasons and times |
| BookingSpec.FeeIsBoundedAndMonotone | server/internal/booking/domain/cancellation.go:26-40 | The fee lies in 0..total, never falls as time passes, and is exactly half, rounded down, from three to six days ahead |
| BookingSpec.CancelFixesTheFee | server/internal/booking/domain/booking.go:105-121 | What each cancellation costs, by status, reason and days left, and that nothing but status and fee changes |
| BookingAggregate.BookingObject.Cancel | server/internal/booking/domain/booking.go:105-121 | Never fails; fixes and returns 0, half or all of the total for a guest cancelling a Confirmed booking, by the days left, 0 for any other reason or status, and the stored fee when Cancelled already |
| BookingAggregate.BookingObject.Transition | server/internal/booking/domain/booking.go:178-184 | Changes the status iff the transition is allowed |
| BookingAggregate.BookingObject.StartPayment | server/internal/booking/domain/booking.go:94-96 | Succeeds iff TemporaryHold |
| BookingAggregate.BookingObject.Confirm | server/internal/booking/domain/booking.go:98-103 | Succeeds iff ProcessingPayment or already Confirmed |
| BookingAggregate.BookingObject.FixTotalFee | server/internal/booking/domain/booking.go:123-129 | Sets the total to the fee iff TemporaryHold |
| BookingAggregate.BookingObject.ChangeGuests | server/internal/booking/domain/booking.go:131-140 | Replaces the guests iff not Cancelled and 1..capacity of them; the right error otherwise |
| BookingRepository.Repository.SaveAndReload | server/internal/booking/infra/postgres/repository.go:48-88 | Saving and loading gives the booking back with its guests as a set; other bookings' rows are untouched |
| BookingRepository.Repository.Update | server/internal/booking/app/booking.go:225-245 | One booking transaction stores exactly the call's effect, or its error and nothing |
| BookingRepository.Repository.Save | server/internal/booking/infra/postgres/repository.go:48-88 | The row has the booking's fields, each guest a row under first and last name, removed guests are gone, and no other booking's rows change |
| BookingRepository.Repository.Load | server/internal/booking/infra/postgres/mapper.go:10-43 | Succeeds iff every validator accepts the stored row and guests, and returns what is stored |
| BookingRepository.StoredIsLoadable | server/internal/booking/infra/postgres/mapper.go:10-43 | The validators used on load accept whatever Save wrote for a booking the domain built |
| BookingTables.UpdateStored | server/internal/booking/app/booking.go:225-245 | A booking transaction of the saga is one of the repository: same reply, and the tables store its outcome, guests in any order |
| BookingTables.SaveStored | server/internal/booking/app/booking.go:247-251 | A save without a lock leaves tables that store what the saga's save yields |
| BookingTables.ReachableBookingsAreStored | server/internal/booking/infra/postgres/repository.go:48-127 | In every run whose calls bring guests as buildGuests makes them, every reachable state has tables that store exactly its bookings, and every one of them can be loaded |
| BookingTables.BuiltGuestsAreOk | server/internal/booking/app/booking.go:299-309 | Guests built from accepted names can be stored and loaded |
| BookingTables.BuiltGuestsAreApart | server/internal/booking/app/booking.go:299-309 | Two calls that take their identifiers one after the other build guests without a common identifier |
| Names.NewNameAcceptsItsOwnOutput | server/internal/booking/domain/name.go:20-30 | A name the validator produced is accepted again, unchanged |
| Names.UnchangedMeansValid | server/internal/booking/domain/name.go:20-50 | The validator returns a name unchanged iff it is trimmed and of allowed length |
| Names.TrimSpaceIsTheCore | server/internal/booking/domain/name.go:20-30 | Trimming yields a contiguous part of the text, cuts off Unicode white space only, and leaves none at either end |
| Names.NewNameIsExact | server/internal/booking/domain/name.go:20-50 | Accepts iff both names without the white space around them have 1 to 50 characters, and returns these as first and last name |
| StayPeriods.NewStayPeriod | server/internal/booking/domain/stay_period.go:17-24 | Accepts iff the checkout day is later; the stay is exactly the days from checkin up to, not including, checkout |
| StayPeriods.Dates | server/internal/booking/domain/stay_period.go:38-44 | Every day of [checkin, checkout) once, ascending, as many as Nights |
| StayPeriods.OverlapMeansSharedNight | server/internal/booking/domain/stay_period.go:46-48 | Overlaps, which compares end points, holds iff the stays share a night |
| Common.DaysAndHoldTime | server/internal/booking/domain/stay_period.go:50-52 | The day of an instant is the 24 hours it lies in, and HoldTTL is thirty minutes |

## Left out

- HTTP handlers, JSON, authentication and ownership checks, error tables, web front ends, load scripts and deployment: plumbing.
- Accommodation, room type and booker records: capacity, deleted flag and prefecture are plain lookups.
- Real clocks, time zones, calendar normalisation and hours as floating point: days and instants are integers.
- PostgreSQL below the row lock (foreign-key share locks, snapshots, lock timeouts as durations): a lock owner per row, private writes, and a rollback at any point.
- `int32` wrap-around: values are taken to be in range.
- Statement-level interleaving of booking-row transactions: a booking transaction is one step of the saga; the same row lock protects it as protects an inventory.
- Order of listings (`ORDER BY`): every result holds for any order of rows, so no order is modelled, except that Search's rows come cheapest first.
- Status columns as text: the status mappers are one-to-one, so rows hold the status itself.
- Inventory transactions committed unseen inside the sequential methods of `Service`, except in CollectExpired: there they commit or roll back; in the small-step processes each may also be committed unseen, and the safety results cover that.
- `ListByBooker` and the booking summaries: a read model without invariants of its own.
- Payment webhooks and reconciliation: not in the code modelled here.
- Liveness: a Confirm that fails midway stays in ProcessingPayment until someone cancels it; nothing says that anyone does.
