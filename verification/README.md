# Verified model of the booking service

A Dafny model of the salon booking service and proofs about it. The service holds appointment times
for customers who are deciding, turns holds into bookings, moves and cancels them, runs customers'
recurring routines and the salon's own series, sells packages and parties, checks customers in and
sends reminders. Most of what can go wrong in it spans several calls, several workers or several
tables; that is what is modelled here.

Run `dafny verify dfyconfig.toml` in this directory.

## How it is laid out

| component | modules |
|---|---|
| the diary: holds, bookings, reservations, keys | `Lifecycle`, `Chain`, `Diary`, `DiaryProofs`, `DiaryChairs`, `DiaryRuns`, `DiaryDays`, `DiaryCalendar`, `DiaryLengths`, `DiaryBooks`, `DiaryStore` |
| handlers over the diary | `Confirming`, `ConfirmRun`, `ConfirmingMoney`, `MobileCreate`, `VisitMoves` |
| customers' routines | `RoutineBooking`, `RoutineDesk`, `RoutineMove`, `RoutinePlanner`, `RoutinePreview`, `AlternativesMeaning`, `RoutineCreate`, `RoutineSessions`, `RoutineJob`, `RoutineJobProofs`, `RoutineJobBookings`, `RoutineJobPause`, `RoutineJobAlone` |
| the salon's series | `Materialiser`, `LadderMeaning`, `SeriesDiary`, `SeriesRun` |
| money, packages, baskets | `Money`, `Packages`, `Basket`, `BasketMeaning` |
| parties | `PartyPlan`, `PartyPlanProofs`, `PartySeating`, `PartyRules`, `PartyTightest`, `PartyCreate`, `PartyMoney`, `PartyProducts`, `Parties` |
| checking in | `CheckIn`, `CheckInDesk`, `Parties` |
| reminders | `Delivery`, `Dispatcher` |
| small kernels | `Greedy`, `FreeStarts`, `WalkIn`, `Chips` |

`Diary` gives each transaction as a function from a diary to a diary, and `DiaryStore.Store` runs the
same transactions on fields, one by one; its methods are proved equal to those functions, and the
properties of runs, interleavings and sagas are proved about the functions. `RoutineDesk`, `Basket`,
`Dispatcher`, `PartyPlan` and `CheckInDesk` follow the same plan. Where two parties act at once
(`Confirming`, `RoutineJob`, `Dispatcher`), the model is a step function over a schedule, because the
interleaving is the point. Time is a number handed in; a failing call is a value handed in.
Beside each operation stand lemmas that say what it comes to without naming the functions it is made
of: in minutes of the calendar (`DiaryCalendar`), in candidates of the ladder (`LadderMeaning`), in
catalogue entries (`BasketMeaning`), in guests and professionals (`PartyRules`), and so on.
`RoutineBooking` books sessions on a plain store, told how each single create is answered; `RoutineCreate`
does it on the diary, and `RoutineSessions.PlainRunAgrees` says that the two end alike.

## What the proofs found

These are places where a property that reads as promised does not hold of the code. Each has a lemma
with the input that shows it, and a lemma saying exactly when the property does hold.

- **A shift in place counts no chair, and neither does a visit of a series.** Both take the lock a
  count needs and do not count (`src/infrastructure/persistence/reschedule.repository.ts:188-235`,
  `src/infrastructure/persistence/series.repository.ts:488-607`), though README.md:270-272 says chairs
  are counted under that lock. `DiaryChairs.ShiftOversells`, `SeriesDiary.SeatOversells`,
  `DiaryRuns.ChairsNeverOversold`.
- **The party planner looks at chairs only where its own lanes begin and end**
  (`src/domain/availability/party.ts:349-373`), on the ground that nothing else can change the count;
  a visit of the diary that begins inside a lane does. `PartySeating.PlanOversells`,
  `PartySeating.ChairRuleExact`.
- **A confirm need not name the services its hold was placed for.** It takes them from its own request
  and the hold's rows as they are (`src/infrastructure/persistence/booking.repository.ts:188-222`), so a
  hold for half an hour can become a booking of an hour and a half whose professional is sold again after
  thirty minutes: `DiaryLengths.ConfirmedForLonger`. Every booking keeps its professional for as long as
  it says it takes if and only if each confirm and each move took over a hold placed for that long:
  `DiaryLengths.BookingsGetTheirMinutes`.
- **A party that fits exactly together may be answered a few minutes apart.** A window to finish in is
  searched depth first, so trying the exact finish first (`src/domain/availability/party.ts:163-177`,
  `src/domain/availability/party.spec.ts:470-477`) keeps each guest in turn as late as the guests before
  them allow, not the party together: `PartyTightest.FitsButIsNotKeptTogether`,
  `PartyTightest.TogetherIff`. Asking without a window first tells: `PartyTightest.FitsTogetherIff`.
- **A party that was written but cannot be read back is not undone.** Its lanes are confirmed, and no
  actor may expire a confirmed booking, so every step of the cleanup is refused and swallowed
  (`src/application/commands/mobile-group-booking.handler.ts:353-375`).
  `PartyCreate.UnreadablePartyStaysBooked`, `PartyCreate.ExpiresExactly`.
- **The mobile create gives everything back only for the failures its `catch` can see**: not for
  confirm's write after its own transaction, and not for building the answer, which is returned without
  being awaited (`src/application/commands/mobile-booking.handler.ts:455`).
  `MobileCreate.FailedCreateGivesBack` has the exact condition, for keys that are stored already too.
- **A key whose link failed can never be booked with again.** The key outlives the compensation, so a
  retry is answered with the booking that was expired, for which no link can be sent; the customer gets
  an error every time, whatever is free: `MobileCreate.KeyedRetryNeverSucceeds`. And a retry that is
  answered with an older booking leaves its own new hold behind, blocking the slot:
  `MobileCreate.SuccessfulCreateOwnsTheSlot`.
- **A double tap may be told its hold is gone**, although its twin just booked it, if and only if the
  twin commits between the tap's first look-up and its reading of the hold, or between its second
  look-up and its transaction: `Confirming.TwinRefusedExactly`. (README.md:276-279 says confirm runs the
  feasibility check again; the code does not, and the model follows the code.)
- **A drag that fails after placing its hold keeps it**; the customer's own change of a session gives
  it back. `VisitMoves.FailedDragKeepsItsHold`, `VisitMoves.FailedSessionLeavesNothing`.
- **The hourly job loses track of a booking whose create threw after writing it**: the throw is taken
  for a slot that was not free, and a live booking is left on no visit and on no record
  (`src/application/commands/mobile-series-job.handler.ts:268-275`). Every booking is accounted for if
  and only if that never happens: `RoutineJobBookings.EveryBookingAccountedFor`. A visit goes on showing
  a cancelled booking exactly when an unlink threw: `RoutineJobBookings.VisitsShowLiveBookings`.
- **Losing the claim of a pause tells the other worker nothing**, so it can book far visits into the
  paused routine: `RoutineJobPause.LoserStillBooks` gives the run, `RoutineJobPause.PauseStopsExactly`
  says exactly when it can. With a third copy of the job a visit can be claimed twice
  (`RoutineJobPause.ThirdCopyClaimsAgain`).
- **A settled reminder can still go out again, if and only if a worker slower than its lease has yet to
  send**: `Dispatcher.SettledIsTheLast`.
- **Two requests raised at one instant can hide a rejection**, because the latest is found by the clock
  and then by id: `CheckIn.SameInstantForgetsTheRejection`; `CheckIn.RejectionIsFinal` says exactly when
  a rejection is final.

## Model

| member | source | states |
|---|---|---|
| `Lifecycle.CapacityFollowsStatus` | src/domain/booking/lifecycle.ts:45-321 | nothing leaves a terminal state, and a legal step gives capacity back exactly when it ends a claim on the diary, the step to rescheduled apart |
| `Lifecycle.ConfirmedNeverExpires` | src/domain/booking/lifecycle.ts:103-321 | no actor may expire a confirmed booking, with or without a reason |
| `Lifecycle.TerminalIff` | src/domain/booking/lifecycle.ts:73-84 | the terminal states are exactly those no step leaves, whoever takes it and why |
| `Lifecycle.SettledWasServed` | src/domain/booking/lifecycle.ts:103-321 | whoever was behind each step, a settled booking was confirmed, checked in, in service and completed in its last four steps |
| `Lifecycle.LivesAreShort` | src/domain/booking/lifecycle.ts:103-321 | a life in which no check-in is undone has at most eight states and none of them twice |
| `Chain.SegmentsTile` | src/domain/availability/feasible.ts:190-227 | a chain of services is cut into stretches that cover the visit without gap or overlap |
| `Chain.ExpandChain` | src/domain/availability/feasible.ts:190-227 | the loop that pushes the stretches computes exactly that cut |
| `Chain.ResourceDemandDisjoint` | src/application/commands/place-hold.handler.ts:63-81 | the chair demands of a visit never overlap and never leave the visit's window |
| `DiaryProofs.PlaceSound` | src/infrastructure/persistence/hold.repository.ts:176-298 | placing a hold keeps the diary sound: no professional twice, one owner per row, live claims protected, one booking per hold |
| `DiaryProofs.DropHoldsSound` | src/infrastructure/persistence/hold.repository.ts:304-326 | so does releasing or sweeping any set of holds |
| `DiaryProofs.ConfirmSound` | src/infrastructure/persistence/booking.repository.ts:161-422 | so does a confirm, and no booking is charged twice |
| `DiaryProofs.TransitionSound` | src/infrastructure/persistence/lifecycle.repository.ts:230-451 | so does every legal lifecycle step: rows block exactly as long as the status claims the time |
| `DiaryProofs.ShiftSound` | src/infrastructure/persistence/reschedule.repository.ts:146-327 | so does a shift in place |
| `DiaryProofs.MoveSound` | src/infrastructure/persistence/reschedule.repository.ts:329-571 | so does a move onto a hold |
| `DiaryChairs.PlaceWithinUnits` | src/infrastructure/persistence/hold.repository.ts:184-217 | counting the overlapping rows of each demand keeps every station within its units at every minute |
| `DiaryChairs.ShiftWithinUnits` | src/infrastructure/persistence/reschedule.repository.ts:188-235 | a shift keeps every station within its units if and only if the new window had a unit to spare throughout |
| `DiaryChairs.CountingWouldDo` | src/infrastructure/persistence/hold.repository.ts:197-217 | the count a place makes would be enough for a shift |
| `DiaryChairs.ShiftOversells` | src/infrastructure/persistence/reschedule.repository.ts:188-235 | two visits of one colour station: dragging one onto the other is accepted and the station seats two |
| `DiaryRuns.NobodyInTwoPlaces` | README.md:259-270 | over every run of place, release, sweep, confirm, transition, shift, move, a visit of a series and a payment link: nobody in two places, every row one existing owner, unreleased visits still protected, one booking per hold |
| `DiaryRuns.ChairsNeverOversold` | README.md:270-272 | over every run no station is ever oversold if and only if every shift in it, and every visit of a series, had room |
| `DiaryRuns.ShiftJudgedAgainstOthers` | src/application/commands/desk-actions.handler.ts:60-70 | a shift is refused exactly when somebody else's reservation is in its way, never the booking's own |
| `DiaryRuns.ReleaseUndoesPlace` | src/infrastructure/persistence/hold.repository.ts:300-309 | releasing a hold leaves the very diary there was before it, an id aside |
| `DiaryRuns.KeysNeverChange` | src/infrastructure/persistence/booking.repository.ts:161-422 | a stored idempotency key keeps its booking through every run |
| `DiaryRuns.HoldStaysGone` | src/infrastructure/persistence/hold.repository.ts:300-326 | a spent or deleted hold never comes back |
| `DiaryDays.PlaceReadsItsDay` | src/infrastructure/persistence/hold.repository.ts:176-298 | diaries that read the same on a day answer every place inside it alike |
| `DiaryDays.CreateIsOnDay` | src/application/commands/mobile-booking.handler.ts:336-512 | however a create ends, rows there were keep their time and new ones that block lie inside its day |
| `DiaryDays.CreateLeavesOtherDays` | src/infrastructure/persistence/db-booking-context.ts:144-171 | so a create changes no other day's reading and no place's answer on another day |
| `DiaryCalendar.PlacedIff` | src/infrastructure/persistence/hold.repository.ts:176-298 | a place is accepted if and only if it names a service, the professional is free at every minute of it and every chair its client sits in has a unit to spare; and which refusal it gets otherwise |
| `DiaryCalendar.ShiftedIff` | src/infrastructure/persistence/reschedule.repository.ts:146-327 | a shift is accepted if and only if the visit has not happened yet and nobody else needs its professional at any minute of the new time |
| `DiaryCalendar.ConfirmedIff` | src/infrastructure/persistence/booking.repository.ts:161-422 | a confirm books if and only if its hold is alive, it names a service, and neither its key nor its reference was seen before |
| `DiaryCalendar.MovedIff` | src/infrastructure/persistence/reschedule.repository.ts:329-571 | a move goes through if and only if the visit has not happened yet and the hold is alive |
| `DiaryCalendar.StepMeans` | src/infrastructure/persistence/hold.repository.ts:176-326 | every accepted step does to every minute of every professional and every chair, for every owner, what the step is for, and a refused one nothing |
| `DiaryCalendar.HeldTimeIsKept` | src/infrastructure/persistence/hold.repository.ts:176-298 | after an accepted place, through any run that leaves its hold, the hold keeps the professional for exactly the total of its services and each chair for exactly the minutes its client sits, and no place that needs the professional then is accepted |
| `DiaryCalendar.BookedTimeIsKept` | src/infrastructure/persistence/booking.repository.ts:161-422 | and so after its confirm, through any run that neither moves nor ends the booking |
| `DiaryCalendar.ConfirmSays` | src/infrastructure/persistence/booking.repository.ts:161-422 | what a confirm writes down: its key, the hold it came of, the professional held, status, place and length |
| `DiaryLengths.BookingsGetTheirMinutes` | src/infrastructure/persistence/booking.repository.ts:188-222 | over every run each booking keeps its professional for as long as it says it takes, if and only if every confirm and move took over a hold placed for that long |
| `DiaryLengths.ConfirmedForLonger` | src/application/commands/confirm-booking.handler.ts:146-194 | placed for half an hour, confirmed for an hour and a half: the professional is sold again after thirty minutes |
| `DiaryBooks.StepHolds` | src/infrastructure/persistence/hold.repository.ts:176-326 | which steps use a hold up, and that it runs out exactly when its place said |
| `DiaryBooks.SweptWhenDue` | src/infrastructure/persistence/hold.repository.ts:320-326 | whatever ran since, a sweep takes a hold if and only if it was placed to run out by then |
| `DiaryBooks.StepBooking` | src/infrastructure/persistence/reschedule.repository.ts:329-571 | what every step may change of a booking: status by a transition, a link or a deposit owed, professional by a move, and nothing else |
| `DiaryBooks.StepNewBookings` | src/infrastructure/persistence/booking.repository.ts:161-422 | bookings come of confirms that are accepted and of visits of a series, and of nothing else |
| `DiaryBooks.StepKeys` | src/infrastructure/persistence/booking.repository.ts:161-422 | a key is stored by the confirm that books under it, for that booking, and by nothing else |
| `DiaryBooks.StepTakes` | src/infrastructure/persistence/booking.repository.ts:399-405 | money is taken by a confirm that books with a payment, in full and for its own booking, and by nothing else |
| `DiaryBooks.EndedStaysEnded` | src/domain/booking/lifecycle.ts:73-84 | over every run of every kind of step a booking keeps its length, place and origin, and once ended is never touched again |
| `DiaryStore.Store.PlaceHold` | src/infrastructure/persistence/hold.repository.ts:176-298 | the transaction on fields: chairs counted first, then the professional, rows written only when both are free; the whole new state |
| `DiaryStore.Store.ReleaseHold` | src/infrastructure/persistence/hold.repository.ts:304-309 | deleting a hold takes its rows with it, and nothing else changes |
| `DiaryStore.Store.SweepHolds` | src/infrastructure/persistence/hold.repository.ts:320-326 | every hold that has lapsed goes, with its rows |
| `DiaryStore.Store.ConfirmHold` | src/infrastructure/persistence/booking.repository.ts:161-422 | the confirm transaction: its refusals in order, and the whole new state when it books |
| `DiaryStore.Store.ChangeStatus` | src/infrastructure/persistence/lifecycle.repository.ts:230-451 | status and freed capacity change together, or nothing does |
| `DiaryStore.Store.ShiftInPlace` | src/infrastructure/persistence/reschedule.repository.ts:146-327 | old rows freed first, then the new ones written, or nothing |
| `DiaryStore.Store.MoveOnto` | src/infrastructure/persistence/reschedule.repository.ts:329-571 | the hold's rows become the booking's, the old ones stop blocking, the hold is spent |
| `DiaryStore.Store.SeatVisit` | src/infrastructure/persistence/series.repository.ts:488-625 | a visit of a series: booking and rows at once, refused exactly when the professional is taken |
| `DiaryStore.Store.Create` | src/application/commands/mobile-booking.handler.ts:336-512 | hold, confirm, link, answer and the compensation, as run, leave the diary and the answer `MobileCreate` says |
| `DiaryStore.Store.SendPaymentLink` | src/application/commands/payment-link.handler.ts:95-107 | a link is sent only for a confirmed or waiting booking, which it makes wait |
| `DiaryStore.ApplyOneVisitRow` | src/infrastructure/persistence/hold.repository.ts:232-249 | in every run a hold has one visit row, so whose time it holds is never in doubt |
| `Confirming.SameKeySameBooking` | src/application/commands/confirm-booking.handler.ts:119-349 | calls with the same key, given or derived, are answered with the same booking, however their look-ups, reads and transactions interleave |
| `Confirming.OneBookingPerHold` | src/application/commands/confirm-booking.handler.ts:329-349 | whatever keys callers send, a hold yields at most one booking and a booking at most one capture |
| `Confirming.LapsedHoldRefused` | src/application/commands/confirm-booking.handler.ts:131-173 | a hold that is over without a booking is never booked, nor replayed under its derived key, whatever ran before and whatever runs after |
| `Confirming.RetryReplays` | src/application/commands/confirm-booking.handler.ts:395-404 | a retry that starts after the first commit is answered from the store and changes nothing |
| `Confirming.TwinRefusedExactly` | src/infrastructure/persistence/booking.repository.ts:161-200 | when one of two calls with the same key commits, the other is refused if and only if it stands between its first look-up and its read, or between its second look-up and its transaction; else it is answered with the booking |
| `ConfirmRun.Execute` | src/application/commands/confirm-booking.handler.ts:119-397 | both look-ups, the read of the hold, the refusals in order and the transaction, run on the store: the answer and the whole new state |
| `ConfirmRun.AloneIsFourSteps` | src/application/commands/confirm-booking.handler.ts:119-397 | run alone it is the four steps of the interleaved model with nobody in between |
| `ConfirmingMoney.ConfirmTakes` | src/infrastructure/persistence/booking.repository.ts:316-324 | after a confirm that books the ledger holds for it exactly what was tendered, amount and reference, or nothing when nothing was |
| `ConfirmingMoney.ReferencePaysOnce` | src/infrastructure/persistence/booking.repository.ts:399-405 | a reference that paid stays recorded through every run, and no later confirm that carries it books |
| `ConfirmingMoney.OneReferenceOneBooking` | src/infrastructure/persistence/booking.repository.ts:399-405 | over every schedule of calls no two bookings are confirmed with one reference |
| `ConfirmingMoney.BookedIsPaid` | src/application/commands/confirm-booking.handler.ts:119-349 | over every schedule the ledger holds for each booking exactly what its own call tendered |
| `ConfirmingMoney.EveryAnswerIsDeserved` | src/application/commands/confirm-booking.handler.ts:146-194 | over every schedule a call is booked only with its services known, its link in time and its deposit tendered or deferred, and refused for one of these only when it is so |
| `ConfirmingMoney.WriteTells` | src/application/commands/confirm-booking.handler.ts:329-397 | the answer of the transaction says exactly what was so: gone, nothing to book, reference known, key known, or booked |
| `MobileCreate.FailedCreateGivesBack` | src/application/commands/mobile-booking.handler.ts:336-512 | a create that fails after its hold gives everything back if and only if a step its compensation reaches failed and, for a stored key, the booking under it is not expired in its place |
| `MobileCreate.GivenBackCanBeSold` | src/application/commands/mobile-booking.handler.ts:460-499 | after giving back, every place is answered as it would have been before the create |
| `MobileCreate.SuccessfulCreateOwnsTheSlot` | src/application/commands/mobile-booking.handler.ts:336-459 | on success with a new key one booking is new, confirmed or waiting for its link, alone owns the hold's rows at exactly the minutes the visit needs, and no hold is left; with a stored key nothing is booked and the new hold stays |
| `MobileCreate.CreateMadeIff` | src/application/commands/mobile-booking.handler.ts:336-512 | with a new key a create makes its booking if and only if its place is taken, nothing throws, its hold lives and its reference was not taken before |
| `MobileCreate.CreatedKeepsItsTime` | src/application/commands/mobile-booking.handler.ts:336-459 | the booking made keeps its professional and each chair busy at exactly the minutes its visit needs them |
| `MobileCreate.FailedLinkSpoilsTheKey` | src/application/commands/mobile-booking.handler.ts:460-512 | a failed link gives everything back and leaves its key with an expired booking |
| `MobileCreate.SpoiledKeyFails` | src/application/commands/payment-link.handler.ts:95-104 | under such a key a create by link is refused at the link and everything is given back, the key as it was |
| `MobileCreate.KeyedRetryNeverSucceeds` | src/application/commands/payment-link.handler.ts:95-104 | after a failed link, whatever happens in between, a create with the same key and by link fails at the link and gives its hold back, every time |
| `VisitMoves.RunDeskMove` | src/application/commands/desk-actions.handler.ts:71-173 | the two paths of a drag on the store: answer and whole new state |
| `VisitMoves.RunSessionMove` | src/application/commands/mobile-series-manage.handler.ts:395-519 | the customer's move of a session with its cleanup: answer and whole new state |
| `VisitMoves.AskAboutSession` | src/application/commands/mobile-series-manage.handler.ts:460-489 | a dry run answers whether the time can be held |
| `VisitMoves.FailedSessionLeavesNothing` | src/application/commands/mobile-series-manage.handler.ts:484-508 | a failed or dry-run change of a session leaves the diary as it was, an id aside |
| `VisitMoves.FailedDragKeepsItsHold` | src/application/commands/desk-actions.handler.ts:138-158 | a failed drag leaves the diary as it was if and only if it failed before its hold; else the new time stays taken |
| `VisitMoves.MovedOntoTheHold` | src/infrastructure/persistence/reschedule.repository.ts:329-571 | a move gives the booking exactly the minutes of its new time, with the professional held, and touches nobody else's minutes, bookings or holds |
| `VisitMoves.NudgedInPlace` | src/infrastructure/persistence/reschedule.repository.ts:146-327 | a shift gives the booking its professional and its one chair for exactly its own length from the new minute on, and touches nobody else |
| `VisitMoves.SessionMovedIff` | src/application/commands/mobile-series-manage.handler.ts:395-519 | a session is moved if and only if its new time is placed, nothing throws and it may still be moved |
| `VisitMoves.DraggedIff` | src/application/commands/desk-actions.handler.ts:60-173 | a drag is a shift or a move by professional and day, and goes through exactly when that would |
| `RoutineBooking.BookAllExact` | src/application/commands/mobile-series.handler.ts:1419-1476 | on success every session inside the horizon, and no other, has its own new live booking at its day, minute and stylist |
| `RoutineBooking.BookFromIff` | src/application/commands/mobile-series.handler.ts:1419-1476 | it succeeds if and only if the create of every such session does |
| `RoutineBooking.BookAllOrNothing` | src/application/commands/mobile-series.handler.ts:1419-1499 | on failure the live bookings are those there were, plus only those whose release failed and one a create wrote before it threw |
| `RoutineBooking.NearExact` | src/application/commands/mobile-series.handler.ts:1419-1476 | the sessions booked are those at most ninety days ahead, each as often as asked for, in order |
| `RoutineBooking.FailsAtTheFirst` | src/application/commands/mobile-series.handler.ts:1419-1476 | a run that fails names the first near session that was lost |
| `RoutineDesk.Desk.BookEach` | src/application/commands/mobile-series.handler.ts:1419-1476 | the loop that books and, at the first failure, undoes; the whole new state |
| `RoutineDesk.Desk.ReleaseBooked` | src/application/commands/mobile-series.handler.ts:1478-1499 | cancels newest first, passing over those that cannot be cancelled |
| `RoutineDesk.Desk.MoveSessions` | src/application/commands/mobile-series.handler.ts:728-977 | book the new, relink, release the old, run on the store: the whole new state and the answer |
| `RoutineMove.KeepPlan` | src/domain/booking/mobile-series-move.ts:107-134 | the loop that matches sessions to slots they stand on already |
| `RoutineMove.KeepSound` | src/domain/booking/mobile-series-move.ts:107-134 | a kept booking stands on its slot and is kept once |
| `RoutineMove.KeepPlanPartitions` | src/domain/booking/mobile-series-move.ts:107-134 | kept and released are exactly the bookings the sessions had, and nothing is both |
| `RoutineMove.KeepIsMaximal` | src/domain/booking/mobile-series-move.ts:115-128 | a slot keeps no booking only if every session booked at its day and minute with its stylist is kept for another slot |
| `RoutineMove.MovedIff` | src/application/commands/mobile-series.handler.ts:728-977 | a move goes through if and only if every near session that keeps nothing can be booked, the status is as it was and the save goes through; and which failure is told |
| `RoutineMove.MoveFailsSafely` | src/application/commands/mobile-series.handler.ts:728-977 | a failure anywhere before the relink leaves routine, links and old bookings as they were |
| `RoutineMove.MoveIsComplete` | src/infrastructure/persistence/mobile-series.repository.ts:248-365 | once saved, each near session is on one live booking of its own on its new slot, kept ones untouched, exactly the others released, nobody else's row changed |
| `RoutinePlanner.OpenDays` | src/domain/booking/mobile-series.ts:257-264 | the day-by-day walk returns the first open days inside its limit |
| `RoutinePlanner.PlanDaily` | src/application/commands/mobile-series.handler.ts:1136-1177 | the window loop ends and returns what reading the whole final range at once would have given |
| `RoutinePlanner.PlanIsFirstOpenDays` | src/application/commands/mobile-series.handler.ts:1136-1177 | that is at most `count` days, all open, in order, and short only when the range has too few |
| `RoutinePreview.DayOffers.Get` | src/application/commands/mobile-series.handler.ts:235-263 | a day is read once however often it is asked for, and always answers what the engine would |
| `RoutinePreview.DayOffers.IsFree` | src/application/commands/mobile-series.handler.ts:273-284 | a slot is free exactly when the engine offers it |
| `RoutinePreview.ChoicesAreFree` | src/application/commands/mobile-series.handler.ts:265-284 | a choice is listed for a day exactly when it is free then |
| `RoutinePreview.AlternativesFor` | src/application/commands/mobile-series.handler.ts:1296-1342 | the handler's loop over days computes the domain's pick of the choices |
| `RoutinePreview.AlternativesAreFree` | src/domain/booking/mobile-series.ts:1335-1400 | every alternative is free on the same snapshot, is not the refused slot, is on no other session's day, 25 minutes from the others of its stylist and day |
| `RoutinePreview.AlternativesAreBest` | src/domain/booking/mobile-series.ts:1335-1400 | no free, ranking choice is passed over for a worse one |
| `RoutinePreview.RoutineAlternativesAreFree` | src/domain/booking/mobile-series.ts:1410-1459 | the other rule's offers are free, forward, at most two a day and spaced |
| `AlternativesMeaning.AlternativesMean` | src/domain/booking/mobile-series.ts:1335-1400 | said of the engine's answers: what is shown qualifies, best kind and nearest first, and whatever qualifies is shown unless one no worse is too close to it or three no worse are shown |
| `AlternativesMeaning.RoutineAlternativesMean` | src/domain/booking/mobile-series.ts:1410-1459 | the same of the other rule: the stylist's own days forward, soonest first, two a day |
| `RoutineCreate.PicksAccepted` | src/domain/booking/mobile-series.ts:484-535 | picks are accepted exactly when each names a session and all days differ; each session is then its pick or as planned |
| `RoutineCreate.LaidAsPicked` | src/domain/booking/mobile-series.ts:506-517 | each session is where its last pick puts it, with the stylist the pick names or the planned one, and where no pick names it as planned |
| `RoutineCreate.RefusalNames` | src/domain/booking/mobile-series.ts:493-533 | a refusal names the first pick of an unknown session, or the first session whose day is taken |
| `RoutineCreate.CreateIff` | src/application/commands/mobile-series.handler.ts:1419-1476 | sessions on distinct days, booked one after another on the diary, are all made if and only if each near one would be made on the diary the run starts from |
| `RoutineCreate.PreviewHonoured` | src/application/commands/mobile-series.handler.ts:404-489 | a preview that says all free is honoured if and only if, on the diary previewed, the write has chairs and professional for each near session and none of their creates fails of itself |
| `RoutineCreate.PickedAlternativeIsFree` | src/application/commands/mobile-series.handler.ts:1296-1342 | picking an alternative that was shown makes that session free on the next preview |
| `RoutineCreate.MadeIff` | src/application/commands/mobile-booking.handler.ts:336-459 | a session is made exactly when its place is taken, nothing fails and its hold lives to be confirmed |
| `RoutineCreate.LostIff` | src/application/commands/mobile-booking.handler.ts:436-512 | one that is not made leaves the diary as it was, or its create threw after writing; exactly when |
| `RoutineCreate.MadeOnAnotherDay` | src/application/commands/mobile-series.handler.ts:1419-1476 | a session's create makes no difference to another day's |
| `RoutineSessions.CreateBooksNear` | src/application/commands/mobile-series.handler.ts:1419-1476 | on success each near session, in order, has one new confirmed booking of its own that keeps its stylist and chairs at exactly its minutes, and nothing else changed |
| `RoutineSessions.CreateAllOrNothing` | src/application/commands/mobile-series.handler.ts:1419-1499 | on failure the new bookings that stand are those no cancel reached and one written before its create threw; all the time is given back if and only if there are none |
| `RoutineSessions.PlainRunAgrees` | src/application/commands/mobile-series.handler.ts:1419-1476 | the plain run of `RoutineBooking`, answered as the diary would answer each session, ends where the run on the diary ends |
| `RoutineJobBookings.TwoWorkersNeverDoItTwice` | src/application/commands/mobile-series-job.handler.ts:73-297 | under every schedule and failure of two workers: no visit claimed twice, only the pause's winner releases visits, no booking cancelled twice, no event stored twice |
| `RoutineJobBookings.EveryBookingAccountedFor` | src/application/commands/mobile-series-job.handler.ts:233-297 | when both are done each live booking the job made is on exactly one visit, on record as not given back, or was written by a create that threw; every one is accounted for if and only if no create threw after writing |
| `RoutineJobBookings.VisitsShowLiveBookings` | src/application/commands/mobile-series-job.handler.ts:195-226 | every visit that shows a booking shows a live one if and only if no unlink threw |
| `RoutineJobPause.EveryPauseIsSound` | src/application/commands/mobile-series-job.handler.ts:73-135 | what every paused state reached from the start satisfies, under every schedule and failure |
| `RoutineJobPause.PauseStopsExactly` | src/application/commands/mobile-series-job.handler.ts:122-132 | after a pause the other worker can claim, book or link if and only if it had read while the routine was active and has a far visit to try, or has one claimed, or in hand |
| `RoutineJobPause.LoserStillBooks` | src/application/commands/mobile-series-job.handler.ts:122-132 | from the start of any active routine with a far visit due: one copy pauses it and the other then puts a booking into it |
| `RoutineJobPause.ThirdCopyClaimsAgain` | src/infrastructure/persistence/mobile-series.repository.ts:528-594 | from three idle copies a visit can be claimed twice |
| `RoutineJobAlone.OneCopyAlone` | src/application/commands/mobile-series-job.handler.ts:73-297 | one copy, undisturbed: every far visit that is free gets a booking of its own and every other its event, or the routine is paused with exactly its movable visits given back, or nothing changes; and everybody due is reminded |
| `Materialiser.LadderTakesTheBest` | src/domain/availability/series-ladder.ts:95-182 | the ladder takes the best offer of the first rung that holds, and asks a human only when no rung does |
| `Materialiser.NearestAreBest` | src/domain/availability/series-ladder.ts:210-230 | alternatives are candidates, at most three, spaced, in order; no nearer one is passed over for a farther |
| `LadderMeaning.LadderFromCandidates` | src/domain/availability/series-ladder.ts:95-199 | from candidates alone: rung one exactly when the wanted minute with the incumbent is among them, rung two with somebody else then, a shift of a quarter and then of half an hour, the incumbent preferred at each distance; and too far past ninety days |
| `LadderMeaning.AlternativesFromCandidates` | src/domain/availability/series-ladder.ts:210-230 | the alternatives are candidates, the nearest, no two within 25 minutes, at most three |
| `LadderMeaning.SeatEndsRightly` | src/application/commands/materialise-series.handler.ts:249-351 | a seating ends on what the ladder deserves of the candidates the diary did not refuse, after at most three refusals |
| `Materialiser.SeatOne` | src/application/commands/materialise-series.handler.ts:249-351 | the bounded retry, run as a loop over a growing set of rejected slots |
| `Materialiser.SeatConverges` | src/application/commands/materialise-series.handler.ts:298-351 | no rejected slot is tried again or offered, and at most one booking is written |
| `Materialiser.LostRaceShrinks` | src/application/commands/materialise-series.handler.ts:310-350 | every lost race leaves strictly fewer slots |
| `SeriesDiary.SeatSound` | src/infrastructure/persistence/series.repository.ts:488-625 | the write of a visit keeps the diary sound and adds one booking |
| `SeriesDiary.SeatWithinUnits` | src/infrastructure/persistence/series.repository.ts:488-607 | it keeps every station within its units if and only if the station had a unit to spare throughout |
| `SeriesDiary.SeatOversells` | src/infrastructure/persistence/series.repository.ts:488-607 | a station whose one chair is taken: the visit is written and the station seats two |
| `SeriesRun.RunSeries` | src/application/commands/materialise-series.handler.ts:78-171 | the run's loop and its five counters |
| `SeriesRun.RunAddsUp` | src/application/commands/materialise-series.handler.ts:117-171 | every occurrence is counted once, repaired at most materialised, nothing is left raced |
| `SeriesRun.RunCountsSeats` | src/application/commands/materialise-series.handler.ts:117-171 | each counter is how many occurrences ended that way |
| `SeriesRun.SeatedRightly` | src/application/commands/materialise-series.handler.ts:249-351 | an occurrence is deferred past ninety days, handed on when there is nothing to read, and else ends as the ladder says of the day's candidates |
| `SeriesRun.OneBookingEach` | src/application/commands/materialise-series.handler.ts:117-171 | at most one booking per occurrence, as many as the count says |
| `SeriesRun.RunSound` | src/application/commands/materialise-series.handler.ts:117-171 | however the writes go, a run keeps the diary sound and writes as many bookings as it counts |
| `SeriesRun.RunSeatsEachAlone` | src/application/commands/materialise-series.handler.ts:117-171 | with occurrences on days of their own, a run seats each where it would have been seated alone on the diary the run starts from |
| `SeriesRun.PreviewSeries` | src/application/queries/series-preview.handler.ts:95-257 | one verdict per occurrence, each the preview's own, and counts that add up to them |
| `SeriesRun.PreviewSaysRightly` | src/application/queries/series-preview.handler.ts:178-257 | exact when the wanted minute is free, repairable when only a quarter or half an hour away is, stuck when neither, naming the slot the ladder deserves |
| `SeriesRun.PreviewIsTallied` | src/application/queries/series-preview.handler.ts:95-171 | each number of the preview is how many verdicts are of its kind |
| `SeriesRun.PreviewIsTheFirstAttempt` | src/application/queries/series-preview.handler.ts:178-257 | the preview calls an occurrence feasible, at a start and a professional, exactly when seating tries that slot first |
| `SeriesRun.PreviewKeepsItsWord` | src/application/queries/series-preview.handler.ts:95-257 | each occurrence is seated as previewed; all named slots are booked at the first attempt if and only if each still stands; and then exactly the feasible ones are booked, in order, and the counts agree |
| `Money.AllocateSums` | src/domain/shared/money.ts:105-144 | a split exists exactly when some weight is positive and none negative, and adds back to the whole |
| `Money.SharesFair` | src/domain/shared/money.ts:105-144 | each share is its floor or one more, the extra fils going to the largest remainders, ties to the first |
| `Money.FairIsUnique` | README.md:253-257 | there is only one such split |
| `Money.LeftoverSmall` | src/domain/shared/money.ts:128-144 | fewer fils are left over than there are shares |
| `Money.AllocateFils` | src/domain/shared/money.ts:105-144 | the source's loops compute that split, negative amounts included |
| `Packages.ExpansionExact` | src/domain/booking/package.ts:86-120 | a package's parts add up to its price, whatever they cost alone |
| `Packages.ExpansionFair` | src/domain/booking/package.ts:86-120 | they share it fairly by what they cost alone, or equally when they cost nothing |
| `Packages.ResolveSelection` | src/domain/booking/package.ts:157-196 | the loop that pushes parts and expansions |
| `Packages.AskedForUndoesResolve` | src/domain/booking/package.ts:272-292 | reading stored parts back gives the ids that were chosen, repeated packages included |
| `Packages.PackagesSoldExact` | src/domain/booking/package.ts:216-262 | the sales read back are the sales made, in order, with all parts and at the package's price |
| `Basket.LoadedServices.Add` | src/application/commands/basket.ts:92-113 | later services replace earlier ones of the same key, and nothing else changes |
| `Basket.ResolveBasket` | src/application/commands/basket.ts:154-235 | packages are asked for only when needed, parts only when there are packages; the whole answer |
| `Basket.BasketLines` | src/application/commands/basket.ts:248-278 | the walk with its two cursors |
| `Basket.BasketLinesUndoResolve` | src/application/commands/basket.ts:154-278 | with nothing missing: one line per id, laid end to end over the services, each exactly its id's expansion, adding up to the total |
| `BasketMeaning.BasketIff` | src/application/commands/basket.ts:154-235 | a basket is resolved with nothing missing if and only if every id is a service of the branch or a package sold, every package bought has parts and the branch has them all, and everything summed is in one currency |
| `BasketMeaning.LinesCharge` | src/application/commands/basket.ts:154-278 | each line of it is charged the branch's price for its service, or the price of the first package sold under its id for that package's services |
| `Basket.MissingShiftsTheLines` | src/application/commands/basket.ts:248-278 | why callers refuse a basket with an id missing: walked, the missing line would take the next one's price |
| `PartyPlan.Planner.Place` | src/domain/availability/party.ts:257-304 | the search that pushes and pops: on success it leaves the lanes found, on failure the lanes it was given |
| `PartyPlan.SearchSound` | src/domain/availability/party.ts:257-304 | what the search finds fits, lane by lane |
| `PartyPlan.SearchComplete` | src/domain/availability/party.ts:257-304 | if any way down the tree fits, the search finds one |
| `PartyPlanProofs.ChoiceIsValid` | src/domain/availability/party.ts:179-208 | a lane is among a guest's choices and free exactly when the roster allows it |
| `PartyPlanProofs.ChairsFitFewer` | src/domain/availability/party.ts:349-373 | fewer lanes fit wherever more do, so checking as it goes loses nothing |
| `PartyPlanProofs.FoundIsValid` | src/domain/availability/party.ts:122-331 | the answer, back in party order, has a suitable, free, distinct professional for everyone, an allowed stagger and chairs |
| `PartyPlanProofs.ValidIsFound` | src/domain/availability/party.ts:248-304 | whatever the order of the guests, no plan is missed |
| `PartySeating.RunPlanner` | src/domain/availability/party.ts:122-331 | the quick refusals and the search, as run |
| `PartySeating.OrderIsEveryone` | src/domain/availability/party.ts:248-255 | the scarcity order has every guest once |
| `PartySeating.HardestFirst` | src/domain/availability/party.ts:248-255 | fewest professionals first, then the longest service, then the place in the party |
| `PartySeating.PlannedIffPossible` | src/domain/availability/party.ts:122-331 | the planner says yes if and only if there are two guests or more and some plan meets all its rules, so no quick refusal is ever wrong |
| `PartyRules.PlannedByTheRules` | src/domain/availability/party.ts:122-331 | said of guests, roster and clock: a party is planned if and only if everyone can arrive together, or leave together within the window, each served by somebody of their own who has the skills, is asked for, under the cap and free, within the stagger, with a chair when they sit down and get up |
| `PartyTightest.AnswerIsLatest` | src/domain/availability/party.ts:257-300 | of all plans that leave the guests before where the answer has them, none starts the next guest later |
| `PartyTightest.TogetherIff` | src/domain/availability/party.ts:163-177 | the party is kept exactly together if and only if each guest, in their turn, could still be on time |
| `PartyTightest.FitsTogetherIff` | src/domain/availability/party.ts:163-177 | a party fits exactly together if and only if the planner seats it with no window |
| `PartyTightest.FitsButIsNotKeptTogether` | src/domain/availability/party.ts:163-177 | two guests, three professionals, five minutes of window: the party fits exactly together and is answered five minutes apart |
| `PartySeating.ChairRuleExact` | src/domain/availability/party.ts:341-373 | a plan that passes has chairs at every minute if and only if every diary visit that sits down during a lane of its station finds one |
| `PartySeating.PlanOversells` | src/domain/availability/party.ts:341-373 | two guests, two chairs and a visit at half past: planned, and three sit on two chairs |
| `PartyCreate.ClaimEach` | src/infrastructure/persistence/mobile-group-confirm.repository.ts:183-245 | the loop that hands each lane its rows |
| `PartyCreate.ClaimIff` | src/infrastructure/persistence/mobile-group-confirm.repository.ts:183-245 | a party is confirmed if and only if every professional is held and there are as many chairs of each kind, start and length as lanes ask for |
| `PartyCreate.ClaimsExact` | src/infrastructure/persistence/mobile-group-confirm.repository.ts:183-245 | each lane gets its own professional's row and a chair of its kind, none given out twice |
| `PartyCreate.ConfirmedByRows` | src/infrastructure/persistence/mobile-group-confirm.repository.ts:183-245 | the same said of rows: every lane's professional at that lane's start, and for every station, start and length as many chairs as lanes that ask; each lane's rows are its own professional's and a chair of its station for its very minutes |
| `PartyCreate.OwnHoldIsEmptied` | src/infrastructure/persistence/group-hold.repository.ts:165-211 | confirming against its own hold always succeeds and leaves the hold no row |
| `PartyCreate.UnreadablePartyStaysBooked` | src/application/commands/mobile-group-booking.handler.ts:347-375 | expiring confirmed lanes changes nothing at all |
| `PartyCreate.ExpiresExactly` | src/application/commands/mobile-group-booking.handler.ts:358-369 | a lane is expired exactly when the system may expire it from where it stands |
| `PartyMoney.SpreadExact` | src/domain/booking/package.ts:303-314 | any charge is spread whole over parts of no negative price |
| `PartyMoney.LaneConserved` | src/application/commands/mobile-group-booking.handler.ts:287-295 | lines laid end to end spread to one price per service, each line's parts adding up to it, the lane to all |
| `PartyMoney.LaneOfBasketConserved` | src/application/commands/mobile-group-booking.handler.ts:278-330 | and the lines of a resolved basket always are |
| `PartyMoney.PartyAddsUp` | src/domain/booking/group-money.ts:84-150 | members' nets, taxes, totals and deposits add up to the party's, to the fil |
| `PartyMoney.PartyIsCharged` | src/domain/booking/group-money.ts:75-150 | each net is the member's own lines and products, the tax is the nearest fil to five per cent of all of them, the deposit to its percentage of the whole, and both are shared fairly by what each member pays |
| `PartyMoney.ChildPaysHalf` | src/domain/booking/group-money.ts:75-83 | a child pays half of a line and never loses the odd half fil, an adult all of it |
| `PartyProducts.HandBack` | src/application/commands/mobile-group-booking.handler.ts:417-458 | the loop that pushes each checked line back to its member |
| `PartyProducts.ProductsGoHome` | src/application/commands/mobile-group-booking.handler.ts:417-458 | everybody gets their own lines in order, or errors naming exactly the refused lines by member and place, stock judged for the whole party |
| `PartyProducts.NoErrorsMeansAllPass` | src/domain/booking/mobile-products.ts:99-169 | nothing is refused exactly when every line passes |
| `PartyProducts.JudgeIff` | src/domain/booking/mobile-products.ts:99-169 | a line passes if and only if its item is on sale, in the currency, at the price seen to the fil either way, and there is enough for the whole list; and which code it gets otherwise |
| `PartyProducts.WantedIsSum` | src/domain/booking/mobile-products.ts:90-98 | what is wanted of an item is its quantities over the whole list, added up |
| `PartyProducts.SwitchedOff` | src/application/commands/mobile-group-booking.handler.ts:425-437 | where products are not sold the first member who asked for any is told so, and a party that asked for none is not |
| `Parties.PickExact` | src/application/commands/mobile-group-check-in.handler.ts:183-205 | every lane when none are named, else exactly those named, in the party's order; or a refusal exactly when one is not the party's |
| `Parties.RaiseParty` | src/application/commands/mobile-group-check-in.handler.ts:68-103 | the loop over lanes: every lane's outcome and new state |
| `Parties.LaneByLane` | src/application/commands/mobile-group-check-in.handler.ts:68-103 | what happens to a lane depends on that lane and the clock alone |
| `Parties.RaiseTwiceIsOnce` | src/infrastructure/persistence/check-in-request.repository.ts:290-385 | a second tap changes nothing if and only if the window did not open for the lane after the first |
| `Parties.InterruptedCheckInFinishes` | src/application/commands/mobile-group-check-in.handler.ts:50-103 | cut short after any lane and sent again, a lane ends as without the cut if and only if its window did not open in between nor, for a lane not reached the first time, close |
| `Parties.CreatedMeansNewRequest` | src/application/commands/group-check-in-party.ts:22-38 | the party is told of something new exactly when some lane has a new request |
| `Parties.OutcomeMeans` | src/application/commands/mobile-group-check-in.handler.ts:68-103 | a lane is told what is so: new, waiting already, in, gone, or why not |
| `Parties.AnswerMeans` | src/application/commands/group-check-in-party.ts:22-38 | the party is told created, all waiting, one refusal for all, or nothing done, exactly when the lanes say so |
| `Parties.CancelParty` | src/application/commands/mobile-group-cancel.handler.ts:61-129 | the check loop and the cancel loop, cut short anywhere: the whole new state and the answer |
| `Parties.RefusedWholeIff` | src/application/commands/mobile-group-cancel.handler.ts:61-100 | a cancel is refused whole if and only if some lane that is not gone is past cancelling |
| `Parties.WholeCancelEmptiesTheParty` | src/application/commands/mobile-group-cancel.handler.ts:61-129 | a cancel that is not refused leaves every lane gone, and lanes gone before as they were |
| `Parties.InterruptedCancelFinishes` | src/application/commands/mobile-group-cancel.handler.ts:38-129 | cut short and sent again it is not refused, and ends as one that was not cut short |
| `CheckIn.RunSound` | src/application/commands/check-in-desk.handler.ts:102-172 | over every run at most one request waits, and one is approved only after its own check-in went through |
| `CheckIn.AnswersStand` | src/infrastructure/persistence/check-in-request.repository.ts:448-704 | an answered request never changes, and none is lost |
| `CheckIn.RejectionIsFinal` | src/domain/booking/check-in-request.ts:105-150 | a rejection is final if and only if the request it answered was not older, by the clock and then by id, than the one before it |
| `CheckIn.RejectionStands` | src/domain/booking/check-in-request.ts:105-150 | once the latest request is a rejected one no run adds or changes a request |
| `CheckIn.NothingAfterARejection` | src/domain/booking/check-in-request.ts:105-150 | over every run in which the clock keeps up, nothing is raised after a rejection |
| `CheckIn.SameInstantForgetsTheRejection` | src/infrastructure/persistence/check-in-request.repository.ts:290-385 | raised, withdrawn, raised and rejected at one instant, in a run from the start: the customer may raise again |
| `CheckIn.RaiseMeans` | src/domain/booking/check-in-request.ts:105-150 | a request is raised exactly for a confirmed visit, from thirty minutes before its start until its end, with nothing waiting and no rejection standing, and is then the one thing that changes |
| `CheckIn.ApproveMeans` | src/infrastructure/persistence/check-in-request.repository.ts:503-570 | with a request waiting, an approval checks the visit in for it if and only if a chair is free, the visit is confirmed and its window has opened, and then marks that request |
| `CheckIn.ApprovalNeedsAChair` | src/infrastructure/persistence/check-in-request.repository.ts:503-570 | over every run a request is approved only by an approval that found a free chair and an open window |
| `CheckInDesk.Booking.RaiseRequest` | src/application/commands/check-in-request.handler.ts:123-218 | the rules, then the index on waiting requests: verdict and new rows |
| `CheckInDesk.Booking.WithdrawRequest` | src/infrastructure/persistence/check-in-request.repository.ts:626-704 | a withdrawal ends the waiting request, as lapsed if it has lapsed |
| `CheckInDesk.Booking.RejectRequest` | src/infrastructure/persistence/check-in-request.repository.ts:572-620 | a rejection needs a reason and ends the waiting request |
| `CheckInDesk.Booking.ApproveRequest` | src/infrastructure/persistence/check-in-request.repository.ts:503-570 | the check-in, then the mark on the request that was waiting; otherwise nothing |
| `Delivery.SendsOnlyWhatStillHolds` | src/domain/booking/reminder-delivery.ts:119-244 | no reminder about a visit that is off or moved, past its window or after six attempts |
| `Delivery.RetriesEnd` | src/domain/booking/reminder-delivery.ts:211-244 | every retry is inside the window and the budget |
| `Delivery.ProviderDecides` | src/domain/booking/reminder-delivery.ts:211-244 | a row that reaches its provider is settled sent if and only if the provider sent it, skipped when it did not want it, and else retried or given up by budget and window |
| `Delivery.ReachesIff` | src/domain/booking/reminder-delivery.ts:119-210 | which rows reach their provider: a live, unmoved visit, in its window, within six attempts, for a customer who wants it; a row for the hub by its window and the hub's word |
| `Dispatcher.TerminalIsFinal` | src/infrastructure/persistence/notification-delivery.repository.ts:303-318 | a settled row never changes again |
| `Dispatcher.OldAttemptNeverHolds` | src/infrastructure/persistence/notification-delivery.repository.ts:147-175 | an attempt that lost its row never holds it again |
| `Dispatcher.LateResultIsDropped` | src/application/commands/dispatch-reminders.handler.ts:439-454 | after another claim of the row, whatever the slow worker decided is dropped |
| `Dispatcher.OverIsOver` | src/application/commands/dispatch-reminders.handler.ts:143-214 | an attempt is decided once and recorded once |
| `Dispatcher.AtMostSixSends` | src/infrastructure/persistence/notification-delivery.repository.ts:147-175 | however workers crash and interleave, a reminder row reaches its provider at most six times |
| `Dispatcher.SettledIsTheLast` | src/application/commands/dispatch-reminders.handler.ts:439-454 | once a row is settled nothing is ever sent for it again, if and only if no attempt that could still send is in the air |
| `Dispatcher.SentIsTheLast` | src/infrastructure/persistence/notification-delivery.repository.ts:303-318 | an attempt that was sent, recorded while it holds the row, is the last one |
| `Dispatcher.RecordMeans` | src/infrastructure/persistence/notification-delivery.repository.ts:303-318 | a record settles its own row by what its attempt came to, exactly when that attempt still holds it, and no other |
| `Dispatcher.RowsAreIndependent` | src/application/commands/dispatch-reminders.handler.ts:73-87 | a row ends as if its own events had been the only ones |
| `Dispatcher.TallyAddsUp` | src/application/commands/dispatch-reminders.handler.ts:456-467 | every row of a batch is counted once |
| `Dispatcher.RunBatch` | src/application/commands/dispatch-reminders.handler.ts:100-141 | each row is settled from its own order, its own visit and the one answer about its customer, which is what was found out for some row of that customer's; nobody is asked about twice |
| `FreeStarts.Offers` | src/application/commands/place-hold.handler.ts:369-379 | the loop with its skip |
| `FreeStarts.StartsEarliest` | src/application/commands/place-hold.handler.ts:369-379 | the k-th start is no later than the k-th of any other spaced choice |
| `FreeStarts.OffersAreOptimal` | src/application/commands/place-hold.handler.ts:359-379 | free, ordered, 25 minutes apart, and as many as the smaller of three and the largest such choice |
| `Greedy.PickBest` | src/domain/booking/mobile-series.ts:1335-1459 | in a ranked greedy pass no candidate is passed over for a worse one |
| `WalkIn.JoinTells` | src/application/commands/walk-in.handler.ts:178-193 | two lists of ids without a plus sign share a key exactly when they are equal, or both spell nothing |
| `WalkIn.DistinctSets` | src/application/commands/walk-in.handler.ts:188-192 | one entry per key, with the services of its last row |
| `WalkIn.Warm` | src/application/commands/walk-in.handler.ts:194-251 | one question per key; trouble with one list leaves the others alone |
| `WalkIn.View` | src/application/commands/walk-in.handler.ts:162-290 | the board: every row in arrival order with place, wait and the options found under its key |
| `WalkIn.BoardTells` | src/domain/booking/walk-in.ts:146-167 | the board has everyone once, numbered from one in order of arrival, each with the minutes they have waited |
| `WalkIn.OptionsTell` | src/domain/booking/walk-in.ts:94-131 | an option says now up to a quarter of an hour ahead and else from when; a bare gap comes last |
| `WalkIn.OwnAnswer` | src/application/commands/walk-in.handler.ts:162-258 | everyone gets the options their own services would get alone |
| `WalkIn.PlusMixesUpRows` | src/application/commands/walk-in.handler.ts:178-193 | an id with a plus sign would be taken for two |
| `WalkIn.NamedAreEarliest` | src/domain/booking/walk-in.ts:76-114 | at most three professionals, nobody twice, each at their first start |
| `WalkIn.NamedOrLater` | src/domain/booking/walk-in.ts:76-114 | nobody sooner is left out for somebody later |
| `WalkIn.GapIsNext` | src/domain/booking/walk-in.ts:116-131 | the bare gap is the next later start, and only ever of somebody named already |
| `WalkIn.BoardIsTheQueue` | src/domain/booking/walk-in.ts:146-167 | everyone who waits is on the board once, in order of arrival |
| `Chips.TotalsAnswerForRows` | src/infrastructure/persistence/read-model.repository.ts:220-240 | grouped totals answer any question about keys as the rows would |
| `Chips.ChipCountsOf` | src/application/queries/read-models.handler.ts:1699-1711 | the loop over chips sums exactly the totals whose status is behind each |
| `Chips.DayAndMonthAgree` | src/application/queries/read-models.handler.ts:1682-1711 | counting rows and adding totals give every chip the same number |
| `Chips.ChipsDivideStatuses` | src/application/contract/screen-view.ts:209-241 | a status is behind one chip at most, and behind one exactly when the calendar can show it |
| `Chips.ChipsFollowTheVisit` | src/application/contract/screen-view.ts:209-241 | each chip is one stretch of a visit's life, in the order a visit goes through them |
| `Chips.PickedShowsCounted` | src/application/contract/screen-view.ts:224-231 | picking chips shows as many bookings as their counts add up to |
| `Chips.ChipsHoldEveryRow` | src/application/contract/screen-view.ts:233-241 | all the chips together hold every booking read, once |
| `Chips.WindowKpis` | src/application/queries/read-models.handler.ts:1723-1746 | the tiles computed from totals |
| `Chips.TilesAgree` | src/application/queries/read-models.handler.ts:396-412 | they are the tiles the rows would give, and the totals add up to the number of rows |
| `Chips.PaymentChipsDivide` | src/application/contract/screen-view.ts:272-312 | every booking is behind exactly one payment chip |
| `Chips.PaymentChipTells` | src/application/contract/screen-view.ts:272-312 | a settled visit is paid up whatever was taken before; any other stands behind what was taken up front |

## Left out

- Storage itself: SQL, tenants, transactions' retries, row locks and the outbox. A transaction is one atomic step, an exclusion or unique constraint is the guard of that step.
- I/O and other services: tokens, gRPC, e-mail and push providers. Each is an answer handed in.
- `feasibleSet` and its masks, skills, caps and staff search: an engine is any function of a day and of that day's reservations by id, so it may leave some of them out, as the reader leaves out other branches. That the write takes what the engine offers is never assumed: it is one side of an if and only if.
- RoutineCreate.PreviewHonoured: one engine answers the preview and the create, so no hold lapses and no shift or closure changes between the two; and nobody else writes.
- Deposits and quotes: the deposit ladder, risk, promotions and `quote` are amounts and flags handed in.
- The least-loaded choice among free professionals when a hold names nobody: the hold model is given the professional.
- Slug spelling: services are keyed by one folding function and packages by another, whatever the two are.
- Prose, names, avatars, explanations, ISO formatting and rounding to whole dirhams for display.
- Party holds as diary steps: the planner and the hand-over of its rows are modelled, not their interleaving with other holds.
- Reassignment after roster changes, compaction, the waitlist and gap recovery.
- Money.AllocateFils: the source divides in floating point; the model compares exact fractions, so a remainder the two would order differently is not captured.
- `pauseOrResume` and `whereNow`: look-ups that build the input of `RoutineMove.Move`.
- The job's three loops as loops: `RoutineJob` is a step function over two workers, because the interleaving is what is proved.
- DiaryRuns.ChairsNeverOversold: says when the promise holds rather than that it holds, because a shift and a visit of a series do not count chairs.
- A payment link's window and what is still owed: of its refusals only the one on the booking's status is modelled; the others are the flag that the link failed.
- Confirming.LapsedHoldRefused: assumes no caller sends a key that spells a derived one; keys of callers are otherwise arbitrary.
- RoutineJobBookings.TwoWorkersNeverDoItTwice: for two workers; with three it fails, as `RoutineJobPause.ThirdCopyClaimsAgain` shows.
- Dispatcher.AtMostSixSends: for reminder rows. A hub row has no attempt budget of its own once a worker crashes after claiming it.
- SeriesRun.PreviewKeepsItsWord: assumes distinct days, nobody else writing, and one engine for preview and run, whose offers fit their day; on one occurrence `SeriesRun.PreviewIsTheFirstAttempt` needs none of these.
- PartySeating.PlannedIffPossible: reads professionals by id, so it assumes the roster's ids differ; guests are named by their place, as the callers name them.
