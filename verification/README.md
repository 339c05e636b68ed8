# Reserva in Dafny

Reserva sells time slots of fixed capacity on top of a SQL store that several Workers write at once.
This project models the parts of it where a mistake would cost an oversold slot, a refund sent twice,
an email lost for good or a page that shows what cannot be bought, and proves what those parts promise.

## What is modelled

**Capacity.** `Usage` defines the plain meaning: the units in use at an instant, over half-open
windows, with holds that lapse as the clock moves. `Statements` gives the effect of every guarded write
of the store, `Repository` is the store itself, a class whose methods update its tables in place and are
proved to have exactly those effects, and `WriteEffects` says what they mean for everyone else in the columns a
request names. `Runs` lets any number of workers take any of the writes in any order, and `StoreRuns` takes them on
the class. `CapacitySafety` proves what every run keeps; `Occupancy` and `Availability` prove that the
second implementation of the same decision, the sweep over boundaries that customers see, agrees;
`RangeAvailability` puts the answer for a range of dates together from the slots the rules generate.

**The concurrent protocol.** Over the same runs: `TransactionalOutbox` (a transition's delivery rows
exist exactly when it won), `RowLeases` and `ConfirmationLeases` (fencing, caps, takeovers, dead
claimants), `RefundLedger` (the refund row and the scheduled worker that moves money), `Progress` and
`BookingLifecycle` (what never goes back). `StuckRows` runs a store into its dead ends. `Drains` are the claim, run and record loops. `Alerts` and
`Reconciliation` are the incident row and the scheduled sweep with its query budget.

**Money and clocks.** `PartnerOffers` prices selections and decides which offers may be saved.
`LocalTime` converts wall-clock times in an arbitrary zone. `Schedules` and `Slots` turn weekly rules
into the slots of a date.

**Configuration.** `ConfigResolution` resolves a declared configuration and lays stored settings over
it; `StoredSettings` prunes rows that spoil the merge and remembers the outcome.

`dafny verify dfyconfig.toml` checks everything.

## How the store is modelled

Bookings are a sequence that only grows; a booking's id is its position. Instants are integers
(milliseconds), dates are ordered keys, tokens are numbers that are handed out once. A `db.batch` is one
step. A step of a run is one write of one worker; between two of them anything else may happen, so a
worker that dies between a claim and its record is a run in which the record never comes. `Legal` says
what callers pass: the compare-and-set expectations of the handlers, seeds of the family the transition
owes, instants read no later than the clock.

## Where the code and what is said of it differ

- A lapsed hold that no sweep has expired yet is confirmed without the capacity recheck that an expired
  one gets (src/confirmation.ts:275-289). `CapacitySafety.RevivedHoldOversells` gives a run that ends
  over capacity and leaves no oversell marker; `RevivalFitsExactlyWhenThereIsRoom` says exactly when it does not.
- Availability reads the bookings that start before the end of the requested range. A slot whose window
  runs past that end can be shown although the guard would refuse it;
  `Availability.RangeReadSufficesExactlyInsideTheRange` is the exact condition.
- A tenth claimant that dies leaves its row in flight for good. `StuckRows.ExhaustedRowIsReachable` is such a
  run; `RowLeases.OpenRowSettlesExactlyBelowTheCap` says that an open row can still be delivered, without an
  admin and without its present claimant, exactly while its attempts are below the cap.
- The same row among confirmation rows ends every later pass before the rows listed after it, and so would a
  row in backoff. `StuckRows.ExhaustedConfirmationRowIsReachable` is such a run;
  `Drains.PassAttemptsEveryRowExactlyWhenAllAreReady` is the exact condition for a pass to attempt every row.
- A range of dates is answered only if its first date and the date after its last have a local midnight; in a
  zone that springs forward at midnight they may not (`LocalTime.SkippedMidnight`).
  `RangeAvailability.AvailabilityForDates` has the exact condition.
- A service rule may declare a last start and a closing time when they agree. After an edited interval or
  first start, the stored-settings path derives the last start anew while the same edit in the file is
  refused; `ConfigResolution.OverlayAgreesWithEditing` is the exact condition.
- The warnings replayed for remembered settings are those of the rows' first order; only their order can
  differ (`StoredSettings.MergeIgnoresRowOrder`).

## Model

| member | source | states |
|---|---|---|
| `Usage.CandidatePointsDecide` | src/repo.ts:1404-1426 | testing the request's own start and the starts of overlapping active bookings finds an overload exactly when some instant of the requested window would have one |
| `Usage.LatestStart` | src/repo.ts:1404-1411 | the heaviest point at or before any instant is a tested candidate: the start of the latest booking in use there |
| `Statements.CapacityIsUnique` | src/repo.ts:1421-1425 | the day's override, else the latest default at or before the date, else the configured one, never below zero: one value, however it is found |
| `Repository.Repo.ResolveCapacity` | src/repo.ts:1421-1425 | the scan over stored defaults finds that one value |
| `Repository.Repo.UnitsAt` | src/repo.ts:1414-1420 | the sum at a point is the load of all active bookings covering it, the excluded one left out |
| `Repository.Repo.OverCapacity` | src/repo.ts:1404-1426 | refuses exactly when some instant of the window, not only a tested one, would exceed capacity |
| `Repository.Repo.CountHolds` | src/repo.ts:1401-1403 | counts the live holds of one address: the number of bookings stored as its holds and not lapsed |
| `Repository.Repo.InsertHoldWithCapacity` | src/repo.ts:1388-1472 | admits, or names the reason in the order the source reclassifies a lost insert; an admitted hold takes its units over its own window until it lapses, and nothing else; a refusal leaves the table as it was |
| `Repository.Repo.RescheduleWithCapacity` | src/repo.ts:1853-1916 | a won move occupies exactly the requested window with exactly the requested units, leaves the old one, stays within the capacity resolved for it, raises the version and leaves one pending row per seed under that version; a lost one changes nothing |
| `Repository.Repo.SweepExpiredHolds` | src/repo.ts:1250-1256 | expires exactly the holds that lapsed strictly before the given instant, and answers how many they were |
| `Repository.Repo.ExpireHold` | src/repo.ts:1257-1264 | expires one booking still stored as a hold, and nothing else |
| `Repository.Repo.TransitionToCancelled` | src/repo.ts:1498-1509 | cancels under the compare-and-set, frees the window and leaves one pending row per seed, all or nothing |
| `Repository.Repo.UpsertRefundOperationAndTransitionToCancelled` | src/repo.ts:1510-1519 | corrects the refund row always, cancels and records rows only if the compare-and-set wins |
| `Repository.Repo.TransitionToNoShow` | src/repo.ts:1520-1538 | marks a no-show under the compare-and-set, frees the window and leaves one pending row per seed, all or nothing |
| `Repository.Repo.ConfirmWithSideEffectOperations` | src/repo.ts:1558-1610 | confirms under the lease; exactly the calendar row, email rows, marker and subscriber rows it owes are added, only if the booking is then confirmed under this token; a taken payment reference rolls everything back |
| `Repository.Repo.ApplyConfirmedPaymentDetails` | src/repo.ts:1611-1627 | writes a payment reference once, under the lease of a confirmed booking |
| `Repository.Repo.EnsureConfirmationSideEffectOperations` | src/repo.ts:1628-1682 | repairs exactly the missing rows of a confirmed booking under its lease, each email shape only when the other is absent |
| `Repository.Repo.RecordBookingEventOperations` | src/repo.ts:1683-1693 | records occurrence rows; existing rows stay as they are |
| `Repository.Repo.AcquireConfirmationLease` | src/repo.ts:1265-1271 | a lease is taken only when there is none or it expired strictly before now |
| `Repository.Repo.RenewConfirmationLease` | src/repo.ts:1272-1278 | only the holder of an unexpired lease extends it |
| `Repository.Repo.ReleaseConfirmationLease` | src/repo.ts:1279-1284 | only the holder gives the lease back |
| `Repository.Repo.ClaimSideEffectOperation` | src/repo.ts:1739-1752 | claims an open row under the lease, the cap and the backoff, and returns the attempt number it assigned |
| `Repository.Repo.ClaimSideEffectOperationForRetry` | src/repo.ts:1757-1769 | the admin variant ignores cap and backoff but not the lease |
| `Repository.Repo.ResolveSideEffectOperation` | src/repo.ts:1772-1800 | records an outcome under the lease; a created calendar event is written to the booking in the same batch |
| `Repository.Repo.ClaimMutationSideEffectOperation` | src/repo.ts:1804-1816 | claims a due row that is pending, failed, or in flight past its five minutes, below the cap |
| `Repository.Repo.ClaimMutationSideEffectOperationForRetry` | src/repo.ts:1819-1830 | the admin variant also takes an abandoned row, but not a live claim |
| `Repository.Repo.ResolveMutationSideEffectOperation` | src/repo.ts:1831-1845 | records an outcome only for the claim whose start the row still carries |
| `Repository.Repo.ClaimRefundOperation` | src/repo.ts:2105-2114 | one refund row per booking: the first decision wins |
| `Repository.Repo.ResolveRefundOperation` | src/repo.ts:2121-2137 | never touches a succeeded row |
| `Repository.Repo.DeleteRefundOperation` | src/repo.ts:2138-2140 | removes a row only while it is still requested |
| `Repository.Repo.ReconcileStripeRefundOperation` | src/repo.ts:1218-1235 | the provider's report overwrites every column but those of a succeeded full refund |
| `Repository.Repo.ClaimRefundExecution` | src/repo.ts:2147-2158 | claims a due execution below the cap and returns the attempt number |
| `Repository.Repo.ClaimRefundExecutionForRetry` | src/repo.ts:2159-2170 | the admin variant also takes an abandoned row, but not a live claim |
| `Repository.Repo.RecordRefundedAmount` | src/repo.ts:1705-1708 | the refunded total is the larger of the two |
| `Repository.Repo.UpsertDayOverrides` | src/repo.ts:2025-2036 | every listed date, and no other, takes the override |
| `Repository.Repo.DeleteDayOverrides` | src/repo.ts:2037-2044 | every listed date, and no other, loses its override |
| `Repository.Repo.UpsertCapacityDefault` | src/repo.ts:2051-2060 | the dated default is set, and every other stays |
| `Repository.Repo.DeleteCapacityDefault` | src/repo.ts:2061-2066 | the dated default is removed, and every other stays |
| `Repository.Repo.InsertSeeds` | src/repo.ts:1171-1202 | one pending, unattempted row per seed under the booking and the discriminator where none exists; existing rows stay as they are and no other appears |
| `Repository.Repo.DuplicatePaymentRef` | src/repo.ts:103-119 | a payment reference is taken exactly when another booking carries it |
| `WriteEffects.HoldTakesItsUnits` | src/repo.ts:1391-1446 | an admitted hold adds its units at every instant of its window while it has not lapsed, and changes the load nowhere else |
| `WriteEffects.MoveReplacesItsLoad` | src/repo.ts:1894-1905 | a moved booking covers exactly the requested window; the load is everybody else's plus, while it is active, the requested units inside that window |
| `WriteEffects.MovedBookingFits` | src/repo.ts:1857-1893 | with the booking moved, no instant of its window exceeds the capacity resolved for the move |
| `WriteEffects.NextHoldSeesTheMove` | src/repo.ts:1853-1916 | after a won move the next hold for that window is created exactly when its units fit beside the moved ones and everybody else's at every instant |
| `WriteEffects.ConfirmationKeepsItsWindow` | src/repo.ts:1558-1610 | a confirmed booking keeps its stored window and units, one until its end when they are not stored, whatever the clock says |
| `WriteEffects.EndingsFreeTheWindow` | src/repo.ts:1250-1264 | a cancelled, expired or no-show booking occupies nothing from then on and nobody else's load changes |
| `WriteEffects.HoldsAreCounted` | src/repo.ts:1401-1403 | the count of an address is the number of bookings that are its live holds |
| `WriteEffects.HoldCapIsExact` | src/repo.ts:1401-1403 | a request is refused for too many holds exactly when a cap was set and at least that many bookings are live holds of its address |
| `WriteEffects.ConfirmationOwesItsRows` | src/repo.ts:1572-1605 | a confirmation owes exactly the calendar row if one is to be written, an email row per recipient or one for all, the delivered oversell marker if sold without room, and one row per subscriber; all others pending |
| `WriteEffects.RepairOwesItsRows` | src/repo.ts:1628-1682 | a repair owes exactly the calendar row, delivered if the booking has its event, the emails unless rows of the other shape exist, and one row per subscriber |
| `CapacitySafety.EveryRunIsSafe` | src/repo.ts:1388-1472 | over every run of inserts, moves, endings, confirmations, clock advances and capacity edits, around every guard-admitted booking the units of bookings admitted no later never exceed the capacity resolved at its admission |
| `CapacitySafety.StepKeepsSound` | src/repo.ts:1853-1916 | every single step keeps that invariant |
| `CapacitySafety.InsertKeepsSound` | src/repo.ts:1388-1472 | an admitted hold keeps it, although its guard read an instant behind the clock |
| `CapacitySafety.RescheduleKeepsSound` | src/repo.ts:1857-1893 | a move keeps it, the moved booking becoming the latest admission |
| `CapacitySafety.RevivalKeepsSound` | src/confirmation.ts:274-289 | a lapsed hold confirmed without a recheck keeps it for everyone admitted before |
| `CapacitySafety.OtherStepsFade` | src/repo.ts:1250-1264 | no other step makes any booking occupy anything it did not occupy before |
| `CapacitySafety.LatestAdmissionBounds` | src/repo.ts:1388-1472 | the whole load at an instant is at most the capacity of whoever came in last there, if guarded |
| `CapacitySafety.GuardedStoreIsNeverOver` | src/repo.ts:1388-1472 | with every active booking guard-admitted under at most a capacity, no instant exceeds it |
| `CapacitySafety.NoInstantIsEverOverCapacity` | src/repo.ts:1388-1472 | from an empty store, with bounded capacity and no revived hold, no instant is over capacity after any run |
| `CapacitySafety.RevivalFitsExactlyWhenThereIsRoom` | src/confirmation.ts:274-289 | confirming a lapsed hold keeps its window within capacity if and only if the window had room for it |
| `CapacitySafety.SweepingChangesNoLoad` | src/repo.ts:1250-1256 | sweeping lapsed holds changes the load at no instant, for any set of bookings |
| `CapacitySafety.RescheduleGuardIsInsertGuardWithoutIt` | src/repo.ts:1857-1880 | the reschedule guard is the insert guard on the table with that booking removed |
| `CapacitySafety.RevivedHoldOversells` | src/confirmation.ts:275-289 | a concrete run that ends one unit over capacity with no oversell marker: a lapsed hold still stored as a hold is not rechecked |
| `CapacitySafety.RevivedHoldRunIsLegal` | src/confirmation.ts:275-289 | each step of that run is one the handlers can take |
| `Occupancy.AddPoint` | src/core/occupancy.ts:279-299 | the boundary points stay sorted, each once |
| `Occupancy.UsableIntervals` | src/core/occupancy.ts:261-277 | keeps exactly the intervals that are not empty and take units |
| `Occupancy.MaxAtBoundaries` | src/core/occupancy.ts:279-299 | returns the true maximum over all instants of the window, reached at some instant |
| `Occupancy.InnerPointsDominate` | src/core/occupancy.ts:279-299 | every instant of the window is covered no more than some boundary point before its end |
| `Occupancy.PeakDecides` | src/core/occupancy.ts:309-317 | comparing the maximum with capacity is comparing every instant with it |
| `Occupancy.IsSlotAvailable` | src/core/occupancy.ts:309-317 | true exactly when every instant of the slot and its turnaround has room for the party |
| `Occupancy.OccupancyFor` | src/core/occupancy.ts:141-146 | the least number of units whose seats hold the party |
| `Availability.ListOccupancyBookings` | src/repo.ts:1920-1938 | lists, by start, each active booking starting inside the range once and no other |
| `Availability.GetOccupancyIntervals` | src/core/occupancy.ts:166-212 | the intervals weigh, at every instant, what the calendar and the listed active bookings weigh when each is taken to occupy its window until its end plus its service's present turnaround; the excluded booking is left out; an error exactly when one of them is of an unknown service |
| `Availability.CapacityForDate` | src/core/occupancy.ts:227-248 | the capacity shown for a date is the one the guard resolves |
| `Availability.LongestOccupation` | src/handlers/availability.ts:226 | the lookback is long enough for every service's duration plus turnaround |
| `Availability.AvailabilityForDay` | src/core/occupancy.ts:339-379 | closed exactly without capacity or a matching rule; otherwise a slot is offered exactly when it begins inside the notice and horizon window and every instant up to its end and turnaround has room; limited and full as documented |
| `Availability.OfferedExactlyWhenRoom` | src/core/occupancy.ts:339-379 | a slot is offered exactly when it is inside the notice and horizon window and every instant of it has room |
| `Availability.AvailabilityPayload` | src/handlers/availability.ts:230-286 | an error exactly when a booking read and counted is of an unknown service; otherwise a slot is offered exactly when requestable and every instant up to its turnaround's end has room among what was read, with the day's status; while bookings match their services an offered slot that frees its units inside the range is one for which the hold checkout writes, or the move of the excluded booking, is admitted, and without calendar events exactly such slots are offered |
| `Availability.AnswerAgreesWithTheStore` | src/handlers/checkout.ts:299-330 | what a slot is answered is what the guarded insert does with checkout's hold for it, which ends its occupancy a turnaround after the slot, or the guarded move with the reschedule into it |
| `RangeAvailability.GeneratedSlotsBeginInsideTheRange` | src/handlers/availability.ts:218-233 | every slot the rules generate for a date of the range begins between the range's two midnights |
| `RangeAvailability.DaySlots` | src/handlers/availability.ts:252 | a date's slots are exactly those the rules generate |
| `RangeAvailability.AvailabilityForDates` | src/handlers/availability.ts:216-286 | the answer for a range exists exactly when its two midnights do; then every generated slot ending inside the range is offered only if, and without calendar events exactly if, the hold checkout writes for it, turnaround included, is inserted |
| `Availability.RangeLoadIsExact` | src/handlers/availability.ts:224-280 | looking back by the longest duration plus turnaround misses no booking that matters inside the range |
| `Availability.RangeReadSufficesExactlyInsideTheRange` | src/handlers/availability.ts:224-280 | the range read decides a slot as the whole table does, on every table checkout can store, if and only if the slot's window ends inside the range or the party exceeds the capacity |
| `Availability.OnePersonTakesOneUnit` | src/core/occupancy.ts:141-146 | a party of one takes one unit of any service |
| `Availability.LateBookingIsMissed` | src/repo.ts:1920-1924 | for every slot window that runs past the range end and could fit the party, a table of one-person bookings right after the range fills it unseen |
| `Availability.RemainingBookingsIsExact` | src/core/occupancy.ts:319-324 | exactly the reported number of further holds of the party is admitted one after another, and the next is refused |
| `Availability.OfferCountsWhatCanBeSold` | src/core/occupancy.ts:359-376 | an offer's number is what can be sold: exactly that many further holds of checkout's are admitted into the slot, one after another, and the next is refused |
| `Availability.DayReportsRoom` | src/core/occupancy.ts:359-376 | the number reported is the capacity left over the true peak, divided by the party's units |
| `Availability.ExpiredHoldOversold` | src/confirmation.ts:121-152 | reports an oversell exactly when some instant of the booking's slot and its service's turnaround lacks room among what was read; while bookings match their services, whenever the guard would refuse, and without calendar events only then |
| `BookingLifecycle.ConfirmedSnapshotIsStored` | src/core/booking.ts:148-168 | the confirmed booking announced to subscribers is the row the guarded write leaves |
| `BookingLifecycle.CancelledSnapshotIsStored` | src/core/booking.ts:179-186 | a won cancellation stores what the domain computed |
| `BookingLifecycle.DomainCancelsOnlyConfirmed` | src/confirmation.ts:538-542 | the domain refuses exactly the unconfirmed bookings that a provider's refund may still cancel |
| `BookingLifecycle.DomainAllowsExactly` | src/core/booking.ts:179-223 | what may be cancelled, marked a no-show once begun, moved and confirmed, and what each leaves |
| `BookingLifecycle.NoShowSnapshotIsStored` | src/core/booking.ts:217-223 | a no-show the domain allows always wins on the row it was computed from, and is stored as computed |
| `BookingLifecycle.MovedSnapshotIsStored` | src/core/booking.ts:198-215 | a won move stores the domain's booking, under a higher version, with the units and the occupancy end the move named |
| `BookingLifecycle.EveryStepFollowsTheGraph` | src/core/booking.ts:140-146 | every step of every run changes a status along the domain's edges, or cancels an unconfirmed booking through a cancellation that expects one |
| `BookingLifecycle.StatusesOnlyAge` | src/core/booking.ts:140-146 | over every run a booking only moves forward through hold, expired, confirmed and its two ends |
| `Progress.EveryRunGoesForward` | src/repo.ts:1894-1916 | over every run rows are never removed, versions and refunded totals never fall, prices never change, cancelled and no-show are final |
| `StoreRuns.TakeStep` | src/repo.ts:1388-2170 | every step of a run does to the store exactly what the repository call it stands for does |
| `StoreRuns.TakeRun` | src/repo.ts:1388-2170 | so every legal run of the model, called step by step on the repository, ends in the same store |
| `TransactionalOutbox.EveryRunKeepsTheOutboxSound` | src/repo.ts:1165-1202 | over every run a transition's rows exist exactly when a winning transition named them, and confirmation rows only for bookings that were confirmed |
| `TransactionalOutbox.KeysAfter` | src/repo.ts:1628-1682 | which keys any one step can add, and that it removes none |
| `TransactionalOutbox.WinnerInsertsEveryRow` | src/repo.ts:1165-1202 | a winner's rows, those of a cancellation inside a refund correction included, are all new and pending: its insert never meets a conflict |
| `TransactionalOutbox.WinnerLeavesARowPerSeed` | src/repo.ts:1171-1202 | over a sound ledger a winner leaves, for each seed, a new pending row under its booking and its version or none; every row it adds is one of these and no other row changes |
| `TransactionalOutbox.EveryRowHasOneDrain` | src/confirmation.ts:37-45 | calendar creation, confirmation emails and the marker are drained under the booking's lease, the rows of every other seed through their own |
| `TransactionalOutbox.LoserChangesNothing` | src/repo.ts:1894-1916 | a transition whose compare-and-set loses leaves rows, version and booking as they were; a losing refund correction still writes its refund row and nothing else |
| `TransactionalOutbox.LaterRescheduleHasAHigherVersion` | src/repo.ts:1894-1916 | successive winning moves of a booking get strictly increasing discriminators, whatever runs between them |
| `RowLeases.EveryRunKeepsRowsSound` | src/repo.ts:1804-1845 | over every interleaving attempt_count equals the claims won, no ordinary claim comes after ten, and an open row belongs to its last claim alone |
| `RowLeases.OnlyTheLatestClaimRecords` | src/repo.ts:1831-1845 | a claim's outcome is recorded if and only if it is the row's latest claim |
| `RowLeases.SupersededClaimChangesNothing` | src/repo.ts:1831-1845 | a claimant whose row was claimed again leaves the store as it is |
| `RowLeases.SucceededIsAbsorbing` | src/repo.ts:1804-1845 | a delivered row never changes again |
| `RowLeases.AbandonedWaitsForAnAdmin` | src/repo.ts:1819-1830 | an abandoned row is left only by an admin retry |
| `RowLeases.ExhaustedRowIsStuck` | src/repo.ts:1804-1816 | an open row at the cap never changes again without an admin and without its present claimant |
| `RowLeases.ClaimableExactlyBelowTheCap` | src/repo.ts:1804-1816 | an open row can be claimed at some instant if and only if its attempts are below the cap |
| `RowLeases.OpenRowSettlesExactlyBelowTheCap` | src/repo.ts:1804-1845 | without an admin and without its present claimant an open row can still be delivered by some run, or change at all, if and only if its attempts are below the cap |
| `StuckRows.ExhaustedRowIsReachable` | src/repo.ts:1804-1816 | a run from an empty store, ten claimants dying in turn, that leaves a row in flight at the cap which no later run delivers without an admin |
| `RowLeases.AttemptsAreClaimsGranted` | src/repo.ts:1739-1830 | over every run, on confirmation rows as on the others, the attempt count grows by exactly the claims granted, and ordinary claims stop at the cap |
| `RowLeases.NoOrdinaryClaimPastTheCap` | src/repo.ts:1804-1816 | past the cap no ordinary claim is ever granted |
| `RowLeases.FailedRowsStayClaimable` | src/confirmation.ts:645-681 | over every run of the drains a row left failed by an ordinary attempt can be claimed at once |
| `RowLeases.ClaimsAreGrantedExactly` | src/repo.ts:1804-1830 | the sweep takes a due row below ten attempts that waits or whose claim is over five minutes old, an admin any of them and an abandoned one too; a grant is one more attempt from now on and changes nothing else |
| `RowLeases.LiveClaimIsExclusive` | src/repo.ts:1804-1845 | over every run, while a claim is at most five minutes old and unrecorded, nobody is granted the row, an admin included, and it stays as it is |
| `ConfirmationLeases.LostForever` | src/repo.ts:1265-1284 | a token the booking no longer carries never comes back |
| `ConfirmationLeases.TakeoverEndsTheFormerLease` | src/repo.ts:1265-1271 | a takeover ends the former holder's lease at that step |
| `ConfirmationLeases.LostTokenWritesNothing` | src/repo.ts:1739-1800 | claim, resolve, confirm, repair, payment, renew and release under a lost token change nothing |
| `ConfirmationLeases.SupersededHolderIsFenced` | src/confirmation.ts:204-255 | after another token was acquired, however the run goes on, nothing the old holder does changes the store |
| `ConfirmationLeases.UnexpiredLeaseIsKept` | src/repo.ts:1265-1271 | an unexpired lease is never taken |
| `ConfirmationLeases.HeldThroughout` | src/confirmation.ts:366-394 | a token that holds the lease at the end of a run held it all along |
| `ConfirmationLeases.NoClaimBetweenClaimAndResolve` | src/confirmation.ts:204-255 | between one token's claim of a row and its own successful resolve no other token claims that row |
| `Drains.RunMutationSideEffect` | src/confirmation.ts:645-681 | one claim, delivery and record; an unclaimable row or an unconfigured provider leaves it alone |
| `Drains.ListSideEffectOperations` | src/repo.ts:1731-1736 | exactly the booking's rows, once each, in some order |
| `Drains.RunOwedMutationSideEffects` | src/confirmation.ts:707-713 | every owed row of the booking gets one attempt in whatever order they are listed, and no other row changes |
| `Drains.AttemptNeverLeavesARowInFlight` | src/confirmation.ts:70-85 | an attempt ends delivered with its result, abandoned, or failed below ten attempts, without backoff and claimable at once, keeping the instant of its first failure |
| `Drains.TenFailuresAbandon` | src/repo.ts:252-267 | a row that keeps failing is attempted on each drain, remembers its first failure, is abandoned by the tenth attempt, and never attempted again |
| `Drains.ExecuteOperation` | src/confirmation.ts:204-255 | a confirmation row is claimed, run and recorded under the lease, or turned away as in progress |
| `Drains.HeldAttemptRecords` | src/confirmation.ts:204-255 | with the lease held, an attempt is turned away exactly when the row's attempts are used up or its backoff runs, and otherwise records its outcome |
| `Drains.RunConfirmationPass` | src/confirmation.ts:335-348 | rows run in order; a provider failure is remembered, the first refusal ends the pass |
| `Drains.PassAttemptsEveryRowExactlyWhenAllAreReady` | src/confirmation.ts:335-348 | with the lease held, a pass attempts every row it does not skip, and is never turned away, if and only if each of them has attempts left and is out of its backoff |
| `StuckRows.ExhaustedConfirmationRowIsReachable` | src/confirmation.ts:335-348 | a run from an empty store after which the pass of any lease holder ends at an exhausted calendar row and leaves the email behind it unsent |
| `Drains.ExhaustedRowHoldsBackTheRest` | src/confirmation.ts:335-348 | an open row whose attempts are used up leaves every row listed after it unattempted |
| `Drains.RunScheduledConfirmation` | src/confirmation.ts:718-743 | the lease is taken for one row and always given back; without it nothing changes |
| `RefundLedger.EveryStepKeepsTheLedger` | src/repo.ts:2105-2169 | every step keeps a decided amount present exactly for partial refunds, ids unique, and each row within its allowed changes |
| `RefundLedger.EveryRunKeepsTheLedgerSound` | src/repo.ts:2105-2169 | and so does every run |
| `RefundLedger.ClaimedRowIsNeverDeleted` | src/repo.ts:2138-2158 | a refund row whose execution was claimed is there for good, under its id |
| `RefundLedger.SettledWholeRefundIsKept` | src/repo.ts:1218-1235 | a succeeded full refund keeps choice, id and amount under every later step, the provider's correction included |
| `RefundLedger.ProviderIsAskedOnlyForACancelledBooking` | src/refund-executor.ts:58-99 | whatever else runs, when the scheduled worker asks the provider the booking is stored cancelled, money was decided and a payment exists; a partial decision asks exactly its own positive amount, a full one exactly the booking's price |
| `RefundLedger.DecisionsWithoutMoneyAskNobody` | src/refund-executor.ts:66-87 | over every run a claimed decision is asked for exactly when it moves money and has a payment; otherwise nobody is asked, no booking changes, and the row ends delivered for no refund and failed without retry for no payment |
| `RefundLedger.RefusedAttemptBacksOff` | src/refund-executor.ts:98-109 | a refused attempt, or the tenth, is abandoned; any other is retried after 5, 10, 20, 40 and then 60 minutes |
| `RefundLedger.PaidAttemptIsRecorded` | src/refund-executor.ts:118-124 | a paid attempt raises the booking's refunded total to the amount moved and then records amount and reference on the succeeded row |
| `RefundLedger.GateIsExact` | src/reconciliation.ts:326-347 | the worker goes on to claim exactly for an open refund of a cancelled booking, or a requested one of a confirmed booking that it cancels first at the start it read |
| `RefundLedger.LostCancellationIsExact` | src/operator-cancellation.ts:31-43 | having lost the cancellation, the refund goes on if somebody else cancelled; otherwise the decision is taken back while still only requested, and nothing else changes |
| `RefundLedger.ExecutionsAreGrantedExactly` | src/repo.ts:2147-2170 | which refunds the sweep and an admin may execute, an abandoned one only by an admin; a grant is one more attempt under the same decision and changes nothing else |
| `RefundLedger.MoveKeepsKnown` | src/operator-cancellation.ts:13-43 | each step of the worker, a crash between any two of its writes included, keeps what it relies on: the cancellation, the decision it read and, once counted, the refunded total |
| `RefundLedger.CountingKeepsKnown` | src/refund-executor.ts:118-124 | the refunded total is written first and is still there when the row is resolved |
| `RefundLedger.AttemptsAreExecutionsGranted` | src/repo.ts:2147-2170 | over every run a refund's attempt count grows by exactly the executions granted, by the sweep or by an admin |
| `RefundLedger.ExecutionIsExclusive` | src/repo.ts:2147-2170 | while an execution is under way and unsettled nobody is granted another within its five minutes, and the row stays as it is |
| `RefundLedger.GrantedExecutionIsExclusive` | src/repo.ts:2147-2170 | and so from every granted execution on |
| `RefundLedger.ClaimedDecisionIsTheStoredOne` | src/refund-executor.ts:58-87 | the decision a claimed worker acts on is the one stored as its execution is claimed |
| `Alerts.IncidentRow.UpsertOpenIncident` | src/repo.ts:2285-2306 | opens, reopens or refreshes an incident; only a reopen or an escalation raises its revision |
| `Alerts.IncidentRow.ResolveIncident` | src/repo.ts:2313-2325 | only an open incident is resolved |
| `Alerts.IncidentRow.ClaimIncidentAlert` | src/repo.ts:2389-2400 | claims an open, due, unclaimed incident that is behind its revision |
| `Alerts.IncidentRow.ResolveIncidentAlertSuccess` | src/repo.ts:2401-2408 | records the announced revision for the claim's holder only |
| `Alerts.IncidentRow.ResolveIncidentAlertFailure` | src/repo.ts:2409-2415 | backs off for the claim's holder only |
| `Alerts.RevisionsOnlyGrow` | src/repo.ts:2378-2415 | over every run the announced revision stays at or below the current one and neither falls |
| `Alerts.RaiseStaysDeliverable` | src/reconciliation.ts:409-462 | a reopen or escalation leaves the incident deliverable even if every alert already being sent reports success |
| `Alerts.DeliverableIsEventuallyClaimed` | src/repo.ts:2378-2400 | a deliverable incident is claimed by any claim late enough |
| `Alerts.SupersededClaimantRecordsNothing` | src/repo.ts:2401-2415 | a claimant that lost its claim records neither success nor failure, ever |
| `Alerts.AlertsExactlyWhenItWorsens` | src/reconciliation-helpers.ts:100-112 | projecting a source raises the revision exactly when the source is new, comes back, or gets worse |
| `Alerts.IncidentFollowsItsSource` | src/reconciliation-helpers.ts:100-112 | after a scan the incident is open at the source's severity and fingerprint while it is detected, unless closed by hand in that very state, and closed automatically once it has recovered; what was announced stays |
| `Alerts.RescanningIsIdempotent` | src/reconciliation-helpers.ts:100-112 | scanning an unchanged source any number of times equals scanning it once |
| `Alerts.ManualResolutionHolds` | src/reconciliation-helpers.ts:100-112 | a manual resolution holds until the source's fingerprint changes |
| `Reconciliation.Budget.Fits` | src/reconciliation.ts:118-132 | a step fits exactly when its declared queries leave the reserve free; a refusal marks the budget exhausted |
| `Reconciliation.RunOperations` | src/reconciliation.ts:514-518 | runs the page's operations in order and nothing else; it stops short only when the budget refused the next one, which still does not fit |
| `Reconciliation.ProcessRefundCandidate` | src/reconciliation.ts:326-361 | loads the refund if that fits, then admits an attempt, or a cancellation with its deliveries and its attempt, all at once or not at all; what is issued is exactly that |
| `Reconciliation.RunRefunds` | src/reconciliation.ts:523-527 | loads the page's refunds in order and attempts each that has work; it stops short only when the load or the work of the next one does not fit |
| `Reconciliation.SweepReminders` | src/reconciliation.ts:366-384 | lists and arms exactly the reminders with something to deliver, in order; it stops short only when the listing or the next reminder does not fit, and does nothing when reminders are off |
| `Reconciliation.ProjectSideEffectIncidents` | src/reconciliation.ts:215-225 | projects every listed row; one is left out only when its queries do not fit |
| `Reconciliation.ReportUnreportedOversellMarkers` | src/reconciliation.ts:282-306 | reports every marker, or stops when one query no longer fits |
| `Reconciliation.ProjectIncidents` | src/reconciliation.ts:387-399 | projects every row, refund and marker in order; one is left out only when its queries do not fit |
| `Reconciliation.RunBatch` | src/reconciliation.ts:508-552 | with queries to spare it lists and runs both pages to their end and then projects every source, in the source's order; it reports the larger page |
| `Reconciliation.NextBatch` | src/reconciliation.ts:554-560 | keeps what every stretch of batches keeps: it goes on only after meeting a row not met before, and ends with time and queries left only on short pages or on nothing new |
| `Reconciliation.SweepBacklog` | src/reconciliation.ts:507-561 | at most one batch more than there are rows, why it ended, and with queries to spare the whole work of every batch in order |
| `Reconciliation.DrainAlerts` | src/reconciliation.ts:409-462 | lists, then claims and sends in order; nothing is claimed without a sink; with one, the first alert always fits, and it stops short only when an alert does not fit |
| `Reconciliation.RunReconciliation` | src/reconciliation.ts:488-563 | ends after at most one batch more than there are rows, with queries and time left only at the end of the backlog or when nothing new turns up; it then has swept the holds, armed every reminder and done every batch, in that order, before the alerts; the closing query and, until the alert phase, the alerts' floor stay free |
| `LocalTime.Converter.CachedOffsetMinutes` | src/core/time.ts:53-63 | the cache answers what the zone would answer again |
| `LocalTime.Converter.ConstantOffsetAroundDate` | src/core/time.ts:71-89 | an offset is constant around a date exactly when every hour from 48 before to 72 after agrees |
| `LocalTime.Converter.ProbingSearch` | src/core/time.ts:101-114 | returns the earliest instant shown as the wall time, or none when there is none |
| `LocalTime.Converter.LocalDateTimeToUtc` | src/core/time.ts:95-114 | by either path, the earliest instant shown as the wall time, or none exactly when none is |
| `LocalTime.Converter.UtcToLocalDateTime` | src/core/time.ts:135-149 | the wall minute, through the cache or not |
| `LocalTime.Converter.UtcToLocalIso` | src/core/time.ts:151-159 | the wall clock and the offset in force, through the cache or not |
| `LocalTime.SomeProbeSeesIt` | src/core/time.ts:101-110 | twelve-hour probes cannot miss the offset in force, because offsets last at least that long |
| `LocalTime.FastPathAgreesWithSearch` | src/core/time.ts:95-114 | where the constant-offset path applies it returns the instant the search returns |
| `LocalTime.EarliestOfAllInstants` | src/core/time.ts:95-114 | in a zone that changes on whole minutes the answer is the earliest of all instants |
| `LocalTime.EarliestExactlyWithoutAForwardJumpInsideAMinute` | src/core/time.ts:95-114 | the answers are the earliest of all instants, not only of the whole minutes, if and only if the zone never moves the clock forward inside a minute |
| `LocalTime.FallInsideAMinuteHidesNothing` | src/core/time.ts:95-114 | a zone that moves back inside a minute still gives the earliest of all instants |
| `LocalTime.ConversionsKeepOrder` | src/core/time.ts:95-114 | a later wall time converts to a later instant |
| `LocalTime.SkippedMidnight` | src/core/time.ts:120-129 | in a zone that springs forward at midnight that day's midnight has no answer and one o'clock has |
| `LocalTime.ConversionsAreInjective` | src/core/time.ts:131-133 | two wall times never convert to one instant |
| `LocalTime.SkippedHourDoesNotExist` | src/core/time.ts:111-113 | in a zone that skips an hour exactly that hour has no answer |
| `LocalTime.JumpInsideAMinuteHidesAnInstant` | src/core/time.ts:95-114 | an invented zone of the failing kind: it moves forward inside a minute, and an instant is shown as a wall time no conversion finds |
| `PartnerOffers.TightestRowIsNarrowest` | src/core/pricing.ts:80-94 | the row charged is the narrowest covering the party, wherever it stands; none exactly when no row covers it |
| `PartnerOffers.ComputePrice` | src/core/pricing.ts:48-94 | priced by formula exactly when the least units holding the party are within the maximum and the pickup has an amount: units times base plus surcharge per unit, or units times base plus the surcharge once; by rows, the price of the first narrowest row covering the party, none exactly when none does |
| `PartnerOffers.ParsePartnerOffer` | src/core/partner-offers.ts:71-91 | accepts exactly well-formed offers, unchanged |
| `PartnerOffers.FormulaSaleIsExact` | src/core/partner-offers.ts:102-159 | a formula selection is sold exactly when the offer is well formed, every amount is in the safe range and, with an offer in force, the minimum is reached; each refusal names the first that fails; a sale takes off the nearest share, halves up, of the units' price and a waived pickup |
| `PartnerOffers.TierSaleIsExact` | src/core/partner-offers.ts:102-159 | a selection priced by rows is sold at its row's price, undecomposed, exactly without an offer in force |
| `PartnerOffers.DiscountIsTheNearestShare` | src/core/partner-offers.ts:142-144 | the integer formula is the nearest minor unit to the exact share, halves up, and the only one |
| `PartnerOffers.DiscountBounds` | src/core/partner-offers.ts:142-144 | the rounded discount is within half a minor unit of the exact share and never above the subtotal |
| `PartnerOffers.PayableIsMonotone` | src/core/partner-offers.ts:209-211 | what is left to pay never falls as the subtotal grows, rounding included |
| `PartnerOffers.EndpointsDecide` | src/core/partner-offers.ts:203-219 | trying one unit and the most units at every pickup decides every party size, both ways |
| `PartnerOffers.CheckPartnerOfferForService` | src/core/partner-offers.ts:203-219 | accepts an offer if and only if every party size and pickup of the service can be sold with it; a refusal is for a malformed offer, for row pricing, or for the reason an endpoint fails |
| `PartnerOffers.CheckPartnerOfferForServices` | src/core/partner-offers.ts:225-239 | and so for all services, with every waived pickup known to one of them |
| `PartnerOffers.SavedOfferAlwaysSells` | src/core/partner-offers.ts:203-219 | every selection of a saved offer is priced in the safe range at or above the minimum, and at no less once switched off |
| `PartnerOffers.PricedAmountsAreConsistent` | src/core/partner-offers.ts:102-159 | subtotals, discounts and savings of every priced selection add up and stay within bounds |
| `PartnerOffers.SnapshotRoundTrip` | src/core/partner-offers.ts:162-197 | every priced result reads back unchanged as a stored snapshot |
| `PartnerOffers.AcceptedSnapshotAddsUp` | src/core/partner-offers.ts:162-197 | every accepted snapshot has 0 <= price = original - savings <= original, its discount within half a unit of the percentage and its pickup discount the pickup subtotal or nothing |
| `PartnerOffers.SnapshotIsAcceptedExactly` | src/core/partner-offers.ts:162-197 | a stored snapshot is accepted, unchanged, exactly when its amounts are in the safe range, add up, and are those its applied offer gives |
| `Schedules.ScheduleStartTimes` | src/core/config.ts:680-688 | lists, in order and once each, exactly the grid times up to the last start |
| `Schedules.ClosingTimeRuleFillsTheDay` | src/core/config.ts:57-65 | a rule declared by its closing time starts at every grid time that is back by then, and at no other |
| `Schedules.SeasonsOverlapOnARealDay` | src/core/config.ts:669-678 | the interval test, year-wrapping seasons included, finds an overlap exactly when some real day is in both seasons |
| `Schedules.SomeYearHasIt` | src/core/config.ts:657-661 | every day of a leap year, 29 February included, falls on every weekday in some year |
| `Schedules.SeasonRunsFromDayToDay` | src/core/config.ts:663-673 | a season is the days from its first to its last in the order of the year, over the new year if they are the other way round; January 1 and December 31 where one is missing |
| `Schedules.DaysFollowEachOther` | src/core/time.ts:194-203 | the day after is numbered one more and is the next weekday, from a Thursday on 1970-01-01, through month ends and leap years |
| `Schedules.MonthsHaveTheirDays` | src/core/config.ts:651-655 | the length of each month, February's in leap years included |
| `Schedules.OverlapCheckIsExact` | src/core/config.ts:886-900 | two rules are refused together if and only if on some date both produce the same start |
| `Schedules.CheckRule` | src/core/config.ts:859-883 | reports exactly the faults of one rule |
| `Schedules.ValidateSchedule` | src/core/config.ts:852-901 | reports exactly the faults of a schedule, rule by rule and pair by pair |
| `Schedules.AcceptedRulesNeverCollide` | src/core/config.ts:886-900 | in an accepted schedule no two rules ever produce one start on one date |
| `Slots.OneSlotPerStart` | src/core/slots.ts:54 | two slots under one local start are one slot |
| `Slots.AddStart` | src/core/slots.ts:39-58 | one start is added once, and left out exactly when the local clock skips it |
| `Slots.AddRule` | src/core/slots.ts:34-58 | adds one rule's grid; with an accepted schedule none of its starts is already there |
| `Slots.GenerateSlots` | src/core/slots.ts:30-61 | the slots are, in order of their instants, exactly the existing starts of the rules in force; each lasts the duration, is shown at that minute of the date, and is a step of a rule in season on that weekday; with an accepted schedule nothing is ever de-duplicated |
| `Slots.SlotIsARulesStart` | src/core/slots.ts:30-61 | what a slot is, in the rule's and the clock's own terms: its length, the minute shown at its start, the local stamps of both ends, and the rule it steps through |
| `ConfigResolution.SurchargesFor` | src/core/config.ts:307-314 | keeps exactly the entries of the declared pickup ids |
| `ConfigResolution.ResolvedReads` | src/core/config.ts:321-357 | a declared price field stays as declared and one left out takes the shared block's; surcharges are cut to the pickups of the service; what is inherited is what was left out; one seat per unit where none is declared |
| `ConfigResolution.ResolvedRulesRead` | src/core/config.ts:57-73 | own rules, or the business hours'; each keeps its fields and its last start, 18:00 where neither it nor a closing time is declared, its first start where nothing fits before closing |
| `ConfigResolution.ResolvingIsIdempotent` | src/core/config.ts:321-372 | resolving a resolved configuration changes nothing |
| `ConfigResolution.ApplySettingOverrides` | src/core/settings.ts:467-514 | the last row of each setting takes effect where it is read; a field no row names stays as it was, but an inherited one follows the shared block and a derived last start is dropped; nothing else changes; undecodable rows are reported and skipped |
| `ConfigResolution.SetThenGet` | src/core/settings.ts:223-407 | each setter writes its own field of the configuration, where there is one, and no other setting reads differently |
| `ConfigResolution.OfferedRuleTakesEffect` | src/core/settings.ts:223-290 | the field of the shared hours or of a service's own rule holds the value of its setting's last row afterwards, for each of the five fields of a rule |
| `ConfigResolution.OfferedPriceTakesEffect` | src/core/settings.ts:300-407 | so does every field of shared and own pricing that a resolved configuration offers: surcharges, most units, scope, base price |
| `ConfigResolution.OverlayReadsAsSet` | src/core/settings.ts:467-514 | whatever the rows, every setting of the overlaid configuration reads its last row, the shared block, nothing, or what it was, and its seasons, lengths and identities stay |
| `ConfigResolution.EditKeepsTheFrame` | src/core/settings.ts:223-407 | no setter touches anything that no setting stands for |
| `ConfigResolution.SetEach` | src/core/settings.ts:486-500 | the edits of the decodable rows, each made once, in order; exactly the others are reported |
| `ConfigResolution.FollowSharedBlock` | src/core/settings.ts:501-512 | every inherited field takes the shared block's value, every declared field keeps its own |
| `ConfigResolution.EditCommutesWithStripping` | src/core/settings.ts:516-524 | editing a rule and dropping its derived last start commute |
| `ConfigResolution.StrippedResolvesAlike` | src/core/settings.ts:516-524 | a rule resolves alike with its last start dropped, exactly unless it declares one that its closing time no longer gives |
| `ConfigResolution.EditingKeepsTheMirror` | src/core/settings.ts:223-268 | each offered setting changes the clone as it changes the declaration |
| `ConfigResolution.ServiceAgrees` | src/core/settings.ts:467-514 | for one service and any edits, both ways resolve alike exactly when no declared last start went stale |
| `ConfigResolution.OverlayAgreesWithEditing` | src/core/settings.ts:467-529 | overrides laid over the resolved configuration and resolved again equal the edited file resolved, if and only if no rule is left with a stale declared last start |
| `ConfigResolution.OneWayOfClosingAlwaysAgrees` | src/core/settings.ts:467-529 | so they are always equal when own rules declare a last start or a closing time but not both |
| `ConfigResolution.BothWaysDisagree` | src/core/config.ts:874-882 | an accepted configuration declaring both, and one edit after which the two ways differ |
| `StoredSettings.MergeStoredRows` | src/core/settings.ts:605-639 | with a valid file configuration the loop never runs out of rounds and returns a validated configuration |
| `StoredSettings.FailedRound` | src/core/settings.ts:621-636 | a failed round that can blame a row drops at least one and goes on with the rest |
| `StoredSettings.OutcomeOfTheRounds` | src/core/settings.ts:605-639 | the result is the standing rows laid over the file, or the file itself; the rows reported as rejected are exactly those dropped |
| `StoredSettings.BlameFollowsThePath` | src/core/settings.ts:623-628 | a row is blamed exactly by issues on its own setting or on a block around it |
| `StoredSettings.MergeIgnoresRowOrder` | src/core/settings.ts:578-603 | in whatever order the rows come the configuration is the same, and the warnings up to order |
| `StoredSettings.SameTableSameRows` | src/core/settings.ts:584-587 | the remembered key determines the row set, and nothing less does |
| `StoredSettings.MergedConfigs.LoadMergedConfig` | src/core/settings.ts:578-603 | remembered or not, the configuration of the uncached merge and its warnings up to order |

## Left out

- SQL text, D1 errors, ISO strings and number columns: rows are records, statements their effect on them.
- `updateBooking` (src/repo.ts:1473-1497): it can write any column, capacity columns included, outside every guard; no capacity statement covers it. The calendar row it clears after a deletion is not modelled.
- `transitionToConfirmed` (src/repo.ts:1539-1557): nothing in the repository's sources calls it.
- Rows older than the occupancy columns: `COALESCE` is modelled, but a stored row without them stays in `Usage` only as one unit until its end.
- A null payment reference passed to a confirmation: absent and null are one value here.
- Cancel and operator tokens, their hashes, encryption and expiry; CSRF, CORS, CSP; the browser client, admin pages, email rendering and message catalogs.
- Providers: a delivery is delivered, failed for now or failed for good; a refund is answered with an amount, "later" or "no".
- Calendar events are opaque extra intervals; how an event is matched to its booking, all-day events and the calendar cache are not modelled. The capacity guard does not see them.
- Columns that decide nothing: names, pickup choices, metadata, timestamps of updates, `resolved_at` of a refund row, incident notes, payloads of delivery rows.
- Repository.Repo.InsertHoldWithCapacity: the reads that explain a lost insert run in the same step as the insert; in the source another write can come between.
- RefundLedger.MoveKeepsKnown: the re-read of a booking and the delete of its refund row (src/operator-cancellation.ts:35-40) are one step; nothing is said of what happens between them.
- The refund call without an execution claim (src/refund-executor.ts:88-94, the HTTP path): its writes are steps of the runs, its order of calls is not modelled.
- Reconciliation.RunReconciliation: that a step costs no more queries than it declares is assumed of each step (`Honest`), not derived from the calls it makes; pages are whatever the queries return.
- The reconciliation lease, reminders' own selection, incident pages and counts.
- LocalTime.Converter.LocalDateTimeToUtc: the zone is any function whose offsets last twelve hours, stay within fifteen hours of UTC and are whole minutes; parsing of dates and times is not modelled. Where order matters the zone also never moves back by half a day or more. That a zone changes on whole minutes is a fact about its data: the answer is the earliest whole minute in every zone, and the earliest of all instants in exactly the zones that never move forward inside a minute.
- RangeAvailability.AvailabilityForDates: the zone never moves back by half a day or more (`ShortFalls`); across such a change a later local date can begin before an earlier one. Bookings still match the services they were sold under; the answer when they no longer do is stated for one range of days only, by `Availability.AvailabilityPayload`.
- Slots.GenerateSlots: a date's weekday and day number come from a calendar written out here, not from the JavaScript `Date`.
- PartnerOffers.ComputePrice: a pickup id is looked up in a table; JavaScript's inherited object properties are not.
- ConfigResolution.OverlayAgreesWithEditing: the settings of breakpoint pricing rows are not among the edits, because validation sorts those rows and their keys count positions; the settings outside schedules and formula pricing copy one value and are left out as easy. The declared configuration does not itself claim `inherited` for a value it declares, since only resolution writes that flag.
- StoredSettings.MergeStoredRows: validation and the overlay are arbitrary functions of the rows; that the remembered key is a JSON text rather than the table it spells out is not modelled.
- Zod schemas, form parsing and the validators of single fields.
