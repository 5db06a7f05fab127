# Verified core of the travel CRM back end

A Dafny 4.11 model of the parts of the back end in which a mistake loses seats, money or a session, with proofs about
every run, every interleaving or every input. `dafny verify dfyconfig.toml` checks the project.

Code that updates fields in place is modelled by classes and by methods with loops; each is proved equal to a
specification function, and the promises are lemmas about that function. Code that runs concurrently is modelled as
a state machine whose steps are the units the database or a mutex makes atomic.

| module | what it models |
|---|---|
| `BookingRules`, `BookingWorld`, `BookingAnswers`, `BookingService` | the nine-status booking lifecycle, derived statuses, seat counters, audit rows and events |
| `SeatProtocol` | the same transition split into lock, count, guard, save and commit steps, interleaved with each other, with capacity recounts and with departure edits |
| `KeysetSweep`, `LifecycleJobs`, `Backfill` | keyset batch loops, the hold-expiry, travelled and reconcile jobs, the secret backfill |
| `RefreshProtocol`, `SessionCache` | refresh token rotation with reuse grace, and the per-instance session cache |
| `Treasury`, `TreasuryService`, `TreasuryLocks`, `InvoicePayments` | the ledger, bank feeds, supplier payments, transfers that lock in id order, and payments and status changes of invoices that overlap |
| `ImportEngine` | the batched customer import |
| `Fx` | scaled exchange rates and reporting totals |
| `ArabicForms`, `ArabicText`, `ArabicTwins` | contextual forms, ligatures and run splitting (cursive joining, section 9.2 of the Unicode Standard) |
| `LiveBoard`, `AnswerCache`, `Reminders` | the rate board's two locks, the bounded answer cache, expiry reminders |

## Where the code and a promise part ways

Each point is stated about the code as it is, for all inputs.

- Importing a bank feed twice books some rows twice exactly when a row's external id is blank after trimming: an id of
  spaces passes the `== ""` test and is then trimmed to an empty id, which the unique index does not cover
  (`Treasury.ReimportIsNoOpIffIdsNotBlank`, witness `Treasury.BlankIdBookedTwice`). A repeated feed whose rows are all
  known may also be refused, because a row is checked against the balance before it is found to be a duplicate
  (`Treasury.ReimportCommitsIffRowsFit`).
- The manual posting form refuses transfers by comparing the kind as typed, before it is normalised. It books a
  one-legged transfer exactly when the typed kind is not `transfer` but becomes it by trimming and lower-casing
  (`TreasuryService.ManualTransferIffLoose`, witness `TreasuryService.OneLeggedTransfer` with `" Transfer"`).
- A supplier invoice is paid at most once exactly when no committed payment of it was overtaken by another one since its
  read, even from the same account, and none read it after a reopening: a status change, or an edit of the lines, that
  read the invoice before a payment committed and wrote its own status after
  (`InvoicePayments.PaidOnceIffNoneAgain`, witnesses `InvoicePayments.TwicePaid` and
  `InvoicePayments.ReopenedAndPaidTwice`). Reads take no lock, writes have no condition, and a change to the status an
  invoice already has is accepted. One command after the other it is paid once (`TreasuryService.InvoicePaidOnce`).
- The capacity recount counts seats before it takes the departure's row lock. A stored `capacity_sold` is wrong exactly
  when a recount wrote it last and the seats taken and given back between its count and its write do not balance
  (`SeatProtocol.NoInterleavingOversells`, witness `SeatProtocol.OvertakenRecount`). Status changes do not trust that
  number, departure edits do.
- A departure edit is checked against the stored `capacity_sold`, only when it gives a capacity, and only when the
  departure could not oversell before. It oversells a capped departure exactly when the capacity it leaves is below the
  counter it read, plus what that counter was short of the seats held, plus the seats taken since its read
  (`SeatProtocol.OversoldIffCutBelow`; `SeatProtocol.OvertakenRecount` goes on to such an edit). As one step that is: it
  ends overselling below the seats held, or sets a capacity between a counter that is behind and the seats held
  (`BookingWorld.DepartureCommandOversells`); while counters are right only the former
  (`BookingWorld.ExactCountersProtect`, witness `BookingWorld.UncappingOversells`).
- Importing a sheet twice adds customers again exactly when create or upsert mode meets a valid row whose phone holds a
  digit outside 0-9: normalisation keeps such digits and the lookup strips them
  (`ImportEngine.ReimportIsNoOpIffAscii`). For the same reason an import breaks "one active customer per phone" exactly
  when such a row strips to a key already in use when its turn comes (`ImportEngine.ImportKeepsOnePerPhone`, witness
  `ImportEngine.WideDigitsCollide`).
- A plain text can be recovered from its Arabic shaping exactly when no space or mark stands at the end of an Arabic run
  or directly before one: reversing a run moves the former to the place of the latter
  (`ArabicTwins.UniqueIffNoFloatingEnds`, witness `ArabicText.TrailingSpaceCollides`). Reading back always gives a text
  that is painted alike, and the original exactly when no Arabic run ended in a space or a mark
  (`ArabicTwins.ReadBackPaintsAlike`).
- The answer cache uses the empty key for "none yet". Eviction may find no victim, and the cache may exceed its bound,
  exactly when it is full of live entries the oldest of which has the empty key; in that case it also never drops the
  least recently written entry (`AnswerCache.EvictionMakesRoom`, `AnswerCache.EvictionDropsLeastRecent`, witness
  `AnswerCache.EmptyKeyOverflows`). The only caller passes hexadecimal SHA-256 digests
  (internal/app/assistant/service.go:328-337), so the empty key is reachable at the cache's own methods only.
- The backfill's listing skips a row whose config and bag are empty even when a token hash was left behind, and a row
  whose bag under the active key was sealed for another row; every other skipped row is in its final form
  (`Backfill.SkippedIsFinalIffNoStaleHash`, witness `Backfill.StaleHashSkipped`). The disconnect path clears config, bag
  and hash together (internal/app/inbox/connect.go:134-136), so it leaves no such row.
- README.md:800-801 words the derived status differently from the code (internal/domain/booking/lifecycle.go:186-195).
  They agree except for a ready booking with nothing collected and nothing to pay, and for an unsettled one with more
  refunded than paid (`BookingRules.DocumentedIffSomethingCollected`, witness `BookingRules.FreeBookingIsReady`).
  The model follows the code.

## Model

| member | source | states |
|---|---|---|
| `BookingRules.HardGuardKept` | internal/domain/booking/lifecycle.go:331-377 | an override lifts no failed guard outside the two bypassable ones |
| `Prelude.TrimStrips` | internal/domain/finance/treasury.go:174-181 | trimming takes all spaces off both ends and nothing else |
| `BookingRules.AcceptedPassesHardGuards` | internal/domain/booking/lifecycle.go:268-377 | no accepted transition, by any actor, had a failed guard that cannot be bypassed |
| `BookingRules.AcquireNeedsCapacity` | internal/domain/booking/lifecycle.go:268-377 | whoever acts, a transition that takes seats was judged on a found departure, open sales and free capacity |
| `BookingRules.HoldWindow` | internal/domain/booking/lifecycle.go:268-377 | an accepted option hold ends in the future and at most 14 days away |
| `BookingRules.SystemMovesToDerived` | internal/domain/booking/lifecycle.go:268-377 | a system move inside the confirmed family goes only to the derived status |
| `BookingRules.TransitionKeepsWellFormed` | internal/domain/booking/lifecycle.go:331-377 | hold and forced-ready marks stay tied to the statuses that own them |
| `BookingRules.DerivedMoveAccepted` | internal/domain/booking/lifecycle.go:150-170 | the move of a family booking to its derived status is always legal and passes every guard |
| `BookingRules.LapsedHoldReleased` | internal/domain/booking/lifecycle.go:268-377 | releasing a lapsed hold is never refused |
| `BookingRules.DepartedMoveAccepted` | internal/domain/booking/lifecycle.go:268-377 | marking a family booking as travelled is never refused once the departure day is reached |
| `BookingRules.AcceptedIff` | internal/domain/booking/lifecycle.go:268-377 | a request is accepted if and only if the lifecycle table has the edge and every condition of its target holds; an override lifts readiness and balance only |
| `BookingRules.AcceptedChanges` | internal/domain/booking/lifecycle.go:331-377 | an accepted request changes status, reason, hold and forced ready, each as its target says, and nothing else |
| `BookingRules.EdgesAsListed` | internal/domain/booking/lifecycle.go:118-166 | the edges of each actor are those of the lifecycle table, target by target |
| `BookingRules.DocumentedIffSomethingCollected` | internal/domain/booking/lifecycle.go:186-195 | the code's derived status is the documented one if and only if the booking is neither ready with nothing collected and nothing to pay nor unsettled with a negative collection |
| `BookingRules.FreeBookingIsReady` | internal/domain/booking/lifecycle.go:186-195 | a booking that costs nothing, where the two differ |
| `BookingWorld.SeatsHeldUpdate` | internal/adapter/postgres/booking/repository.go:647-657 | replacing one booking changes a departure's seat count by exactly that booking's seats |
| `BookingWorld.CommittedKeepsTrail` | internal/app/booking/audit.go:85-110 | one more legal change keeps the audit trail unbroken, in step with statuses, seats and events |
| `BookingWorld.AcceptedFits` | internal/app/booking/transition.go:147-183 | whoever acts, an accepted change that takes seats found the departure and room for them |
| `BookingWorld.ApplyKeepsInv` | internal/app/booking/transition.go:142-215 | a committed status change keeps exact seat counters and the exact trail, and makes no departure oversold |
| `BookingWorld.RederiveSettles` | internal/app/booking/transition.go:98-121 | re-deriving never fails and leaves the booking on its derived status |
| `BookingWorld.RederiveKeepsInv` | internal/app/booking/transition.go:98-121 | re-deriving keeps the whole invariant |
| `BookingWorld.EditKeepsInv` | internal/app/booking/service.go:359-398 | editing pax keeps seat counters exact because only bookings without seats are editable |
| `BookingWorld.DraftKeepsInv` | internal/app/booking/service.go:200-315 | a new draft holds no seat and starts its own trail |
| `BookingWorld.StatusCommandKeepsInv` | internal/app/booking/lifecycle.go:140-213 | status changes, hold expiry and travelled marks keep the invariant |
| `BookingWorld.EditCommandKeepsInv` | internal/app/booking/service.go:400-541 | every other booking operation keeps the invariant |
| `BookingWorld.DepartureCommandOversells` | internal/app/tourpackage/service.go:451-508 | whatever the counters say, a departure command oversells a departure if and only if it ends overselling below the seats held or sets a capped capacity between the stored counter and the seats held |
| `BookingWorld.ExactCountersProtect` | internal/app/tourpackage/service.go:469-473 | while counters are right only the end of overselling does so |
| `BookingWorld.DepartureCommandKeepsInv` | internal/app/tourpackage/service.go:451-508 | departure edits and recounts, each one step, keep counters and trail and oversell only in that way |
| `BookingWorld.StepKeepsInv` | internal/app/booking/transition.go:29-121 | every committed operation keeps the invariant, and only such an edit makes a departure oversold |
| `BookingWorld.UncappingOversells` | internal/app/tourpackage/service.go:469-495 | a run of three commands from an empty office that ends with an oversold departure |
| `BookingWorld.EveryRunIsSound` | internal/app/booking/transition.go:142-215 | after any sequence of booking commands, hold extensions, payments, document reviews, capacity recounts and departure edits, each one step: stored `capacity_sold` equals the seats held, audit rows form a legal path to each status, seat figures chain, events match the rows, and no departure is oversold unless an edit uncapped it |
| `BookingWorld.CommandSettles` | internal/app/booking/transition.go:29-96 | after a transition, recompute, participant, checklist or readiness change the booking sits on its derived status and an immediate recompute changes and publishes nothing |
| `BookingWorld.OneConfirmedPerEntry` | internal/app/booking/transition.go:203-215 | as many `BookingConfirmed` events as entries into the confirmed family |
| `BookingAnswers.ReadyIffPrepared` | internal/domain/booking/lifecycle.go:413-427 | readiness holds if and only if all travellers are named and either an override is active or every required item is ticked and no document is missing |
| `BookingAnswers.CommandShowsDerived` | internal/app/booking/transition.go:29-121 | after a transition, recompute, participant, checklist or readiness change a family booking is ready if and only if that was forced or nothing is owed and all is prepared, and of the rest partially paid if and only if money was collected |
| `BookingAnswers.SettledShowsDerived` | internal/domain/booking/lifecycle.go:186-203 | sitting on the derived status means exactly that |
| `BookingAnswers.FactsGathered` | internal/app/booking/transition.go:130-178 | the facts of a change are the departure's row, the seats held now and the dossier |
| `BookingAnswers.OneChangePerRow` | internal/app/booking/transition.go:200-207 | the status events are the audit rows, one each, in order, with booking, statuses and actor |
| `BookingAnswers.OneCancelledPerRow` | internal/app/booking/transition.go:208-213 | as many `BookingCancelled` events as rows to cancelled |
| `BookingAnswers.DraftCreated` | internal/app/booking/service.go:200-315 | when a draft is accepted, and what booking and dossier it creates |
| `BookingAnswers.BookingUpdated` | internal/app/booking/service.go:359-398 | pax and total change in draft and quoted only, and the balance is what the total leaves open |
| `BookingAnswers.DepartureEditApplied` | internal/app/tourpackage/service.go:451-508 | when an edit is accepted, and that it sets exactly the fields it gives |
| `BookingAnswers.ParticipantRemoved` | internal/app/booking/service.go:513-541 | a participant leaves only a draft or quoted booking |
| `BookingAnswers.HoldExtended` | internal/domain/booking/workspace.go:234-251 | a hold is extended only on option, beyond its deadline and within 14 days, and nothing else changes |
| `BookingAnswers.DossierFiled` | internal/app/booking/service.go:400-452 | when participant, checklist and override commands are accepted, and what they leave in the one dossier they touch |
| `BookingService.Service.CountConfirmedPax` | internal/adapter/postgres/booking/repository.go:647-657 | the loop counts exactly the seats held on the departure |
| `BookingService.Service.GatherReadiness` | internal/app/booking/service.go:757-791 | the loop finds a booking ready if and only if its travellers are named and it is overridden or has its items ticked and no document missing |
| `BookingService.Service.GatherFacts` | internal/app/booking/transition.go:142-178 | facts and the seat count before the change, for each kind of change |
| `BookingService.Service.SaveChange` | internal/app/booking/transition.go:180-215 | booking, recounted capacity, audit row and events change together, nothing else does |
| `BookingService.Service.ApplyChange` | internal/app/booking/transition.go:142-215 | refines the atomic change; a refusal leaves the state alone |
| `BookingService.Service.RederiveStatus` | internal/app/booking/transition.go:98-121 | refines re-derivation and cannot fail |
| `BookingService.Service.Publish` | internal/app/booking/transition.go:217-221 | events are appended in order |
| `BookingService.Service.ChangeBookingStatus` | internal/app/booking/transition.go:29-58 | commits the transition and the re-derivation together, or neither |
| `BookingService.Service.RecomputeStatus` | internal/app/booking/transition.go:66-96 | commits the re-derivation and reports a change exactly when events were published |
| `BookingService.Service.ApplyAndPublish` | internal/app/booking/lifecycle.go:140-213 | one system change committed and then published, or nothing |
| `BookingService.Service.ExpireOptionHold` | internal/app/booking/lifecycle.go:140-172 | releases a lapsed hold, leaves any other booking alone, reports a change exactly when it was audited |
| `BookingService.Service.MarkBookingTravelled` | internal/app/booking/lifecycle.go:174-213 | marks a departed family booking; a departure not yet reached is no failure |
| `BookingService.Service.AddBookingParticipant` | internal/app/booking/service.go:400-452 | adds and re-derives, or refuses on a terminal or full booking |
| `SeatProtocol.BeginKeeps` | internal/app/booking/transition.go:29-58 | reading the locked booking row keeps what every job knows true |
| `SeatProtocol.LockKeeps` | internal/app/booking/transition.go:147-162 | locking the departure and counting keep it |
| `SeatProtocol.SaveKeeps` | internal/app/booking/transition.go:163-186 | a row saved under the lock takes seats only if they fit the fresh count |
| `SeatProtocol.SaveAgainKeeps` | internal/app/booking/transition.go:98-121 | the re-derivation's further save in the same transaction changes no seat |
| `SeatProtocol.CommitAccounted` | internal/app/booking/transition.go:187-195 | a commit makes its departure's counter right and shifts every recount and edit it overtakes by its seats |
| `SeatProtocol.RecountKeeps` | internal/app/tourpackage/service.go:600-629 | the unlocked count and the later write keep the invariant, disturb no transition and oversell no departure |
| `SeatProtocol.WriteEditKeeps` | internal/app/tourpackage/service.go:451-508 | an edit written from an unlocked read keeps the invariant, and leaves its departure oversold if and only if it cuts below the seats held as told by its read and what happened since |
| `SeatProtocol.CommitKeeps` | internal/app/booking/transition.go:180-215 | a commit keeps counters exact and leaves every other open job's reads valid |
| `SeatProtocol.NextKeepsInv` | internal/app/booking/transition.go:142-215 | every step of any job, recount or edit, and any rollback, keeps the invariant, and only the write of an edit can oversell a departure |
| `SeatProtocol.NoInterleavingOversells` | internal/app/booking/transition.go:142-215 | in every committed state of every interleaving of status changes, recounts and edits a capped departure is oversold only after an edit that cut below, so never without edits; a counter is right if and only if it was not last written by a recount with an unbalanced seat change between count and write; without recounts all counters are right |
| `SeatProtocol.OversoldIffCutBelow` | internal/app/tourpackage/service.go:451-508 | a step of any run oversells a departure if and only if it writes an edit whose capped capacity is below the counter it read plus what was owed then and taken since |
| `SeatProtocol.OvertakenRecount` | internal/app/tourpackage/service.go:600-629 | a run in which a recount overtaken by a commit leaves a wrong counter, and an edit accepted on it an oversold departure |
| `KeysetSweep.CandidatesExact` | internal/adapter/postgres/booking/repository.go:244-271 | a listing is strictly ascending and holds exactly the candidates |
| `KeysetSweep.CandidatesJoin` | internal/app/booking/lifecycle.go:103-138 | consecutive pages make up the whole listing |
| `KeysetSweep.List` | internal/adapter/postgres/booking/repository.go:244-271 | a page is the next candidates after the cursor, short only at the end |
| `KeysetSweep.HandleBatch` | internal/app/booking/lifecycle.go:116-137 | state, counters and first failure are those of handling the batch in order |
| `KeysetSweep.BatchDone` | internal/app/booking/lifecycle.go:103-138 | after a page everything below the cursor was handled once and everything above is as listed at the start |
| `KeysetSweep.NextBatch` | internal/app/booking/lifecycle.go:103-138 | one page keeps that and moves the cursor forward |
| `KeysetSweep.Run` | internal/app/booking/lifecycle.go:103-138 | the sweep ends; an uninterrupted one hands every initial candidate to the handler exactly once, with matching counters and first failure, although handled rows leave the listing |
| `LifecycleJobs.ExpiryEffect` | internal/app/booking/lifecycle.go:140-172 | the handler touches one booking only and always releases a lapsed hold |
| `LifecycleJobs.ExpiredSoFar` | internal/app/booking/lifecycle.go:69-79 | after any part of the sweep exactly the visited holds are released |
| `LifecycleJobs.ExpireHolds` | internal/app/booking/lifecycle.go:69-79 | a full run releases every lapsed hold, nothing else, without failures, keeps every booking invariant, and leaves no option whose deadline has passed |
| `LifecycleJobs.DepartingEffect` | internal/app/booking/lifecycle.go:174-213 | the handler touches one booking and no departure, and always moves a due booking |
| `LifecycleJobs.DepartedSoFar` | internal/app/booking/lifecycle.go:80-90 | after any part of the sweep exactly the visited bookings are marked |
| `LifecycleJobs.MarkDeparted` | internal/app/booking/lifecycle.go:80-90 | a full run moves exactly the family bookings whose departure day is reached, nothing else, without failures, and leaves none of them behind |
| `LifecycleJobs.SkippedAreSettled` | internal/adapter/postgres/booking/repository.go:284-294 | the reconcile listing skips no booking off its derived status |
| `LifecycleJobs.ReconciledSoFar` | internal/app/booking/lifecycle.go:92-101 | after any part of the sweep exactly the visited bookings are settled |
| `LifecycleJobs.ReconcileDerived` | internal/app/booking/lifecycle.go:92-101 | after a full run every booking, listed or skipped, shows the status its money and dossier call for |
| `RefreshProtocol.RevokeKeeps` | internal/app/auth/ports.go:67-82 | revoking sessions and their tokens keeps the protocol invariant and undoes nothing |
| `RefreshProtocol.EnvKeeps` | internal/app/auth/session.go:40-63 | logins, revocations, deactivations and time keep it |
| `RefreshProtocol.TransactKeeps` | internal/app/auth/session.go:123-158 | the refresh transaction keeps it in all outcomes, raced or not |
| `RefreshProtocol.CallKeeps` | internal/app/auth/session.go:87-158 | every step of a refresh call keeps it |
| `RefreshProtocol.NextKeeps` | internal/app/auth/session.go:68-158 | every step of any interleaving keeps it |
| `RefreshProtocol.RotatedAtMostOnce` | internal/app/auth/session.go:123-158 | at most one committed refresh ever rotates a given token (section 4.14.2 of RFC 9700) |
| `RefreshProtocol.SecondAttemptNeverRaces` | internal/app/auth/session.go:68-85 | the branch for a second race is unreachable: a retry can only proceed by grace |
| `RefreshProtocol.RevokedStaysDead` | internal/app/auth/session.go:123-158 | once a session is revoked no refresh of it commits again, and its reason stands |
| `RefreshProtocol.JudgedExactly` | internal/domain/authsec/refresh.go:78-92 | what a call does with the token and session it read, case by case: rotate, reissue by grace, end the session for reuse, expiry or deactivation, or reject |
| `RefreshProtocol.LoginStarts` | internal/domain/authsec/session.go:47-59 | a login starts a session for the absolute window with a token for the idle window or up to that limit |
| `RefreshProtocol.RevokeMarks` | internal/app/auth/ports.go:67-82 | revoking marks exactly the live sessions named and their live tokens |
| `RefreshProtocol.RefreshTouches` | internal/app/auth/session.go:123-148 | a refresh extends its session's idle limit to the successor's expiry and changes no other session |
| `RefreshProtocol.GraceAndLimitsHold` | internal/domain/authsec/refresh.go:78-92 | every issue used an unexpired token or fell within the grace window of a rotation in the same session, was judged within the absolute and idle limits, and its successor lasts for the idle window or up to the absolute limit |
| `SessionCache.Validator.constructor` | internal/adapter/sessioncache/validator.go:49-61 | an empty cache with the default bound for a non-positive one |
| `SessionCache.Validator.Invalidate` | internal/adapter/sessioncache/validator.go:71-76 | drops exactly that entry and starts a new generation |
| `SessionCache.Validator.InvalidateUser` | internal/adapter/sessioncache/validator.go:78-87 | drops exactly the user's entries and starts a new generation |
| `SessionCache.Validator.DropExpired` | internal/adapter/sessioncache/validator.go:114-130 | drops exactly the expired entries |
| `SessionCache.Validator.MakeRoom` | internal/adapter/sessioncache/validator.go:114-130 | leaves one free place and drops no more than that takes |
| `SessionCache.Validator.Put` | internal/adapter/sessioncache/validator.go:114-130 | stores the entry, invents none, and stays within the bound |
| `SessionCache.Validator.Lookup` | internal/adapter/sessioncache/validator.go:89-99 | a hit is an unexpired entry, and the generation seen is the current one |
| `SessionCache.Validator.Finish` | internal/adapter/sessioncache/validator.go:101-111 | a load stores its result only when no invalidation happened since it started |
| `SessionCache.CheckedExactly` | internal/domain/authsec/session.go:81-90 | a check passes if and only if the session exists, is the user's, live and within both limits, and the version is current; only a stale version of such a session asks for a refresh |
| `SessionCache.DropKeepsInv` | internal/adapter/sessioncache/validator.go:71-87 | an invalidation makes its revoked sessions dead for good |
| `SessionCache.LoadKeepsInv` | internal/adapter/sessioncache/validator.go:89-104 | starting a load and reading the store keep the invariant |
| `SessionCache.FinishKeepsInv` | internal/adapter/sessioncache/validator.go:101-111 | a racing load cannot bring a dead session back |
| `SessionCache.NextKeepsInv` | internal/adapter/sessioncache/validator.go:63-130 | every step of any interleaving keeps it |
| `SessionCache.RevocationIsImmediate` | internal/adapter/sessioncache/validator.go:63-130 | after revocation and a returned invalidation no entry shows the session live, every later check rejects it, and the bound holds |
| `Treasury.PostKeepsExplained` | internal/app/finance/treasury.go:199-214 | a posted movement keeps balances equal to the ledger, running balances right, ids unique and bounds held |
| `Treasury.PostSucceedsIff` | internal/domain/finance/treasury.go:174-248 | when a movement is booked: account, direction of its kind, ranges, bounds of the account and a new or blank id |
| `Treasury.PostBooks` | internal/app/finance/treasury.go:199-214 | what it changes: one balance by amount and fee, and one ledger row that says so |
| `Treasury.TransferSucceedsIff` | internal/app/finance/treasury.go:230-282 | when a transfer commits |
| `Treasury.TransferConserves` | internal/app/finance/treasury.go:230-282 | both legs under one transfer id; the two balances together drop by the fee; other accounts stay |
| `Treasury.FeedKnows` | internal/app/finance/treasury.go:330-367 | after a feed exactly its ids and the earlier ones are known |
| `Treasury.DuplicateExactlyWhenNotNew` | internal/adapter/postgres/finance/treasury.go:91-106 | the unique index rejects a row exactly when the reference calls it not new |
| `Treasury.FeedBooksNewRows` | internal/app/finance/treasury.go:312-383 | a committed feed books exactly the rows that are new, in order, and imported plus duplicates is the row count |
| `Treasury.FeedKeepsExplained` | internal/app/finance/treasury.go:330-367 | the in-memory balance repaired after a duplicate keeps the ledger exact |
| `Treasury.KnownRowsOnly` | internal/app/finance/treasury.go:330-367 | a feed of known rows changes nothing and commits exactly when each row would fit |
| `Treasury.ReimportIsNoOpIffIdsNotBlank` | internal/app/finance/treasury.go:312-383 | committing the same feed again changes nothing if and only if no id is blank after trimming |
| `Treasury.ReimportCommitsIffRowsFit` | internal/app/finance/treasury.go:330-367 | when that second commit is accepted |
| `Treasury.BlankIdBookedTwice` | internal/domain/finance/treasury.go:174-200 | a concrete feed that is booked twice |
| `TreasuryService.StepKeepsExplained` | internal/app/finance/treasury.go:52-282 | accounts, edits, posts, transfers, feeds, payments and top-ups keep the ledger exact |
| `TreasuryService.EveryRunExplained` | internal/app/finance/payables.go:65-173 | in every reachable state each balance is the sum of its ledger movements |
| `TreasuryService.InvoicePaidOnce` | internal/app/finance/payables.go:65-130 | a payment takes total and fee, settles at most the credit used, and a later payment is refused |
| `TreasuryService.PaymentSettles` | internal/app/finance/payables.go:103-112 | a payment settles the smaller of total and credit used for a postpaid supplier of its currency, nothing otherwise; the invoice becomes paid, no other supplier or invoice changes |
| `TreasuryService.PaymentAcceptedIff` | internal/app/finance/payables.go:65-101 | when a payment is accepted |
| `TreasuryService.OpeningBooked` | internal/app/finance/treasury.go:52-86 | a new account starts with its opening balance, booked as one adjustment |
| `TreasuryService.AccountEdited` | internal/app/finance/treasury.go:88-113 | an edit changes commission and activity, never kind, currency, branch or balance |
| `TreasuryService.ImportAcceptedIff` | internal/app/finance/treasury.go:312-328 | when a feed is imported |
| `TreasuryService.TopUpAcceptedIff` | internal/app/finance/payables.go:132-173 | when a top-up is accepted, and that only the supplier's deposit changes beside the books |
| `TreasuryService.ManualBooks` | internal/app/finance/treasury.go:144-185 | a manual post books its amount in the direction and kind its words name |
| `TreasuryService.ManualFee` | internal/domain/finance/treasury.go:249-255 | its fee is the one given, or the nearest whole commission of a point of sale on a collection, or nothing |
| `TreasuryService.TopUpConserves` | internal/app/finance/payables.go:132-173 | account, deposit and fee together are unchanged |
| `TreasuryService.ManualTransferIffLoose` | internal/app/finance/treasury.go:144-185 | a manual post books a transfer leg if and only if the typed kind is not `transfer` but becomes it by trimming and lower-casing |
| `TreasuryService.OneLeggedTransfer` | internal/app/finance/treasury.go:144-185 | a till that receives the incoming leg of a transfer nobody paid |
| `TreasuryService.Service.PostLocked` | internal/app/finance/treasury.go:199-214 | refines the atomic post; a duplicate leaves the stored state alone but the in-memory balance moved |
| `TreasuryService.Service.PostMovement` | internal/app/finance/treasury.go:144-185 | refines the manual post with its checks and point-of-sale fee |
| `TreasuryService.Service.TransferBetween` | internal/app/finance/treasury.go:230-282 | locking in id order, both legs are committed or none |
| `TreasuryService.Service.BookRow` | internal/app/finance/treasury.go:330-367 | after a duplicate the in-memory balance is the stored one again |
| `TreasuryService.Service.BookRows` | internal/app/finance/treasury.go:330-367 | the loop computes the feed and its counters |
| `TreasuryService.Service.Import` | internal/app/finance/treasury.go:312-383 | the whole import commits or nothing does, and every row is counted |
| `TreasuryService.Service.Pay` | internal/app/finance/payables.go:65-130 | balance, invoice and supplier credit change together or not at all |
| `InvoicePayments.CommitKeeps` | internal/app/finance/payables.go:100-119 | a commit is the invoice's first payment exactly when it was neither overtaken since its read nor read a reopened invoice |
| `InvoicePayments.StatusEdges` | internal/domain/supplier/invoice.go:103-119 | which invoice statuses can become which |
| `InvoicePayments.EditKeeps` | internal/app/supplier/service.go:197-220 | status changes, split into an unlocked read and an unconditional write, keep that account; a paid invoice shows another status only after a stale write |
| `InvoicePayments.NextKeeps` | internal/app/finance/payables.go:65-119 | every step of any interleaving of payments, rollbacks and status changes keeps it |
| `InvoicePayments.PaidOnceIffNoneAgain` | internal/app/finance/payables.go:65-119 | an invoice is paid at most once if and only if no committed payment was overtaken since its read and none read it after a reopening; every further payment is of one of these kinds |
| `InvoicePayments.LateNeedsReopening` | internal/adapter/postgres/supplier/repository.go:409-431 | a payment of the second kind needs a status write whose own read preceded a payment's commit |
| `InvoicePayments.TwicePaid` | internal/domain/supplier/invoice.go:103-119 | a run in which two overlapping payments from one account both commit |
| `InvoicePayments.ReopenedAndPaidTwice` | internal/app/supplier/service.go:197-220 | a run in which a stale change to approved reopens a paid invoice and it is paid again without any overlap of payments |
| `TreasuryLocks.SeenIsCurrent` | internal/app/finance/treasury.go:240-255 | what a task read under its locks is what is stored |
| `TreasuryLocks.FinishKeepsInv` | internal/app/finance/treasury.go:240-282 | a commit acts on current balances and disturbs no other task's reads |
| `TreasuryLocks.AcquireKeepsInv` | internal/app/finance/treasury.go:240-255 | taking the next lock keeps what is known under the locks held |
| `TreasuryLocks.NextKeepsInv` | internal/app/finance/treasury.go:230-282 | every step of any interleaving keeps the invariant |
| `TreasuryLocks.RunsAreSerial` | internal/app/finance/treasury.go:230-282 | every interleaving of transfers, single posts and feed imports ends where its committed tasks, one after the other, end |
| `TreasuryLocks.RunsStayExplained` | internal/app/finance/treasury.go:199-282 | balances equal the ledger in every interleaving |
| `TreasuryLocks.SomeTaskCanStep` | internal/app/finance/treasury.go:240-255 | while a task is unfinished some task can step: no deadlock |
| `TreasuryLocks.StepsRunOut` | internal/app/finance/treasury.go:230-282 | every step brings the tasks closer to done |
| `ArabicForms.FormTables` | internal/adapter/pdf/arabic.go:72-112 | the two form tables, letter by letter |
| `ArabicForms.OthersDoNotJoin` | internal/adapter/pdf/arabic.go:114-118 | no other rune joins |
| `ArabicForms.FormDecodes` | internal/adapter/pdf/arabic.go:120-148 | every form names its letter, and only letters of the tables become forms |
| `ArabicForms.JoinsAgree` | internal/adapter/pdf/arabic.go:120-148 | a letter is drawn joining its successor exactly when the successor is drawn joining back |
| `ArabicForms.DecodeLigated` | internal/adapter/pdf/arabic.go:150-176 | decoding undoes the ligature pass on any text shown letter by letter |
| `ArabicForms.ShapingDecodes` | internal/adapter/pdf/arabic.go:120-176 | decoding forms and ligatures restores the run |
| `ArabicForms.NoPairLeft` | internal/adapter/pdf/arabic.go:150-176 | in a shaped run no lam is followed by an alef: every pair became a ligature |
| `ArabicForms.ApplyForms` | internal/adapter/pdf/arabic.go:120-148 | the loop computes every letter's contextual form |
| `ArabicForms.LamAlef` | internal/adapter/pdf/arabic.go:150-176 | the pass that overwrites the buffer it reads equals its functional form |
| `ArabicForms.ReverseRunes` | internal/adapter/pdf/arabic.go:64-70 | the swap loop reverses the shaped prefix |
| `ArabicText.SplitIsWell` | internal/adapter/pdf/arabic.go:31-54 | the runs concatenate to the text, are uniform and break only where they must |
| `ArabicText.RunsAlternate` | internal/adapter/pdf/arabic.go:31-54 | neighbouring runs differ in kind |
| `ArabicText.RunsHold` | internal/adapter/pdf/arabic.go:31-58 | an Arabic run holds Arabic runes, and marks and spaces after the first; another run holds no Arabic rune and starts with neither after an Arabic one |
| `ArabicText.SplitOfJoin` | internal/adapter/pdf/arabic.go:31-54 | splitting is the only way to cut a text into such runs |
| `ArabicText.ShapedRunEnds` | internal/adapter/pdf/arabic.go:10-29 | a painted Arabic run starts with an Arabic rune exactly when the run ended in one |
| `ArabicText.LooseRunMisread` | internal/adapter/pdf/arabic.go:10-29 | a text with a run ending in a space or mark is not read back by that decoder |
| `ArabicText.ShapingInvertibleIffTight` | internal/adapter/pdf/arabic.go:10-54 | splitting, reversing and decoding what was painted gives the text back if and only if no Arabic run ends in a space or a mark |
| `ArabicText.TrailingSpaceCollides` | internal/adapter/pdf/arabic.go:10-54 | two different texts painted alike |
| `ArabicText.NoArabicUnchanged` | internal/adapter/pdf/arabic.go:10-13 | text without Arabic comes back as it is |
| `ArabicText.SplitRuns` | internal/adapter/pdf/arabic.go:31-54 | the loop computes the split |
| `ArabicText.ShapeRun` | internal/adapter/pdf/arabic.go:10-29 | forms, ligatures and reversal of one run, on one buffer |
| `ArabicText.ShapeArabic` | internal/adapter/pdf/arabic.go:10-29 | the whole pass computes the shaped text |
| `ArabicTwins.BothWell` | internal/adapter/pdf/arabic.go:31-54 | a space or mark can move across its Arabic run without changing the other runs |
| `ArabicTwins.SpotCollides` | internal/adapter/pdf/arabic.go:10-54 | the two texts differ, hold the same runes and are painted alike |
| `ArabicTwins.TightTwin` | internal/adapter/pdf/arabic.go:10-54 | every text is painted like one without spaces or marks at the end of Arabic runs, which has one before such a run unless it is the text itself |
| `ArabicTwins.ReadBackPaintsAlike` | internal/adapter/pdf/arabic.go:10-54 | reading painted text back gives that twin, painted alike, and the text itself if and only if it was tight |
| `ArabicTwins.UniqueIffNoFloatingEnds` | internal/adapter/pdf/arabic.go:10-54 | no other plain text is painted alike if and only if no space or mark stands at the end of an Arabic run or directly before one |
| `Fx.RoundDivNearest` | internal/domain/fx/rate.go:136-149 | the quotient is the nearest integer, halves away from zero |
| `Fx.NearestUnique` | internal/domain/fx/rate.go:136-149 | and that determines it |
| `Fx.RoundDivOdd` | internal/domain/fx/rate.go:136-149 | rounding commutes with negation |
| `Fx.RoundDivMonotone` | internal/domain/fx/rate.go:136-149 | rounding keeps order |
| `Fx.ConvertUsesStoredRates` | internal/domain/fx/rate.go:86-104 | a conversion uses the newer stored rate, the direct one on a tie, an inverse one inverted to the nearest unit, and reports it with that rate's day and in the direction asked for |
| `Fx.QuoteInverts` | internal/domain/fx/rate.go:66-80 | an inverse quote times the stored rate is nearest to one |
| `Fx.SameCurrencyUnchanged` | internal/app/fx/converter.go:36-38 | equal currencies convert one to one |
| `Fx.RateMissingIff` | internal/domain/fx/rate.go:89-93 | a rate is missing if and only if neither direction is stored |
| `Fx.ConvertSucceedsIff` | internal/app/fx/converter.go:27-56 | when a conversion succeeds |
| `Fx.ConvertOdd` | internal/app/fx/converter.go:27-56 | converting a refund is the negated conversion |
| `Fx.ConvertMonotone` | internal/app/fx/converter.go:27-56 | a larger amount never converts to less |
| `Fx.ConvertWithinHalf` | internal/domain/fx/rate.go:57-64 | a conversion is within half a minor unit of the exact product with what the stored rates say |
| `Fx.ErrorDecomposition` | internal/domain/fx/rate.go:57-80 | the round-trip error as the sum of its three rounding errors |
| `Fx.ThereAndBack` | internal/domain/fx/rate.go:57-80 | out with the inverted rate and back with rate r returns within `abs(a)*r/(2*10^16) + r/(2*10^8) + 1/2` of a |
| `Fx.SumWithinHalfPerRow` | internal/app/dashboard/revenue.go:191-213 | a total is within half a minor unit per converted row of the exact rational total at the stored rates, and counts every row |
| `Fx.MissingExact` | internal/app/dashboard/revenue.go:191-213 | the missing currencies are exactly those of non-zero foreign rows with no rate stored in either direction |
| `Fx.Sum` | internal/app/dashboard/revenue.go:191-213 | the loop computes that total modulo 64-bit wrap-around, exactly when it fits |
| `ImportEngine.KeyOfNormalized` | internal/domain/shared/pii.go:8-17 | the lookup key of a normalised phone is the phone itself when its digits are 0-9 |
| `ImportEngine.PhoneRunesKept` | internal/domain/shared/pii.go:8-17 | normalising drops exactly the runes that are no digit and no plus |
| `ImportEngine.WideNeverFound` | internal/adapter/postgres/customer/repository.go:119-122 | any other digit makes the phone unmatchable |
| `ImportEngine.PatchThen` | internal/app/importexport/service.go:466-494 | two patches are one patch |
| `ImportEngine.PatchTwice` | internal/app/importexport/service.go:466-494 | a patch is idempotent, also on the customer it created |
| `ImportEngine.ImportAbsorbs` | internal/app/importexport/service.go:385-464 | after an import every matched customer already shows what all rows of its phone amount to |
| `ImportEngine.ImportPatches` | internal/app/importexport/service.go:385-464 | when every row matches, each customer takes the combined patch of its phone |
| `ImportEngine.CustomersShowLastRows` | internal/app/importexport/service.go:385-494 | each customer started in the old table or in the row that added it; in update and upsert mode the one its phone matches then shows every text of the last row for that phone, the last number and the last date given, and any other customer what it started as |
| `ImportEngine.WideRowAdds` | internal/app/importexport/service.go:385-464 | a row with an unmatchable phone adds a customer on every run |
| `ImportEngine.ReimportIsNoOpIffAscii` | internal/app/importexport/service.go:283-464 | a second import changes nothing if and only if the mode is update or all valid phones have digits 0-9 only |
| `ImportEngine.KeysImported` | internal/app/importexport/service.go:385-464 | the phone keys in use after an import are the earlier ones and those of its valid rows |
| `ImportEngine.ImportKeepsOnePerPhone` | internal/app/importexport/service.go:385-464 | at most one active customer per phone remains if and only if there was one before and, outside update mode, no valid row with a digit outside 0-9 strips to a key in use at its turn |
| `ImportEngine.WideDigitsCollide` | internal/app/importexport/service.go:385-464 | a sheet of two such phones that leaves two customers under one key |
| `ImportEngine.FailureCommutes` | internal/app/importexport/service.go:333-352 | a validation failure may be counted ahead of the rows still buffered |
| `ImportEngine.ReportExact` | internal/app/importexport/service.go:290-368 | every row is counted once, only create mode skips, and the rows reported as errors are exactly those without a name or phone, with a bad date, or with nobody to update in the table before the import |
| `ImportEngine.Flush` | internal/app/importexport/service.go:292-331 | one transaction applies the buffered rows in order and counts them |
| `ImportEngine.Take` | internal/app/importexport/service.go:333-352 | reading a row changes the eventual table and report by exactly that row |
| `ImportEngine.Process` | internal/app/importexport/service.go:283-368 | the batched run gives the table and report of the row-by-row import |
| `Backfill.ResealPreservesMeaning` | internal/app/dataprotection/service.go:155-179 | a resealed row loads to the same config and secrets, holds no plaintext secret, and is not resealed again |
| `Backfill.LoadedExactly` | internal/app/secretcfg/secretcfg.go:42-56 | when a row loads, and to what: public keys as they stand, and per credential the sealed value, else the trimmed legacy one |
| `Backfill.HashStored` | internal/app/dataprotection/service.go:168-175 | a resealed row stores the index of its verify token, or nothing without one |
| `Backfill.SaveIsSafe` | internal/adapter/postgres/dataprotection/store.go:82-101 | whatever was written meanwhile, a save changes no row's meaning and is refused when config or bag changed |
| `Backfill.SkippedIsFinalIffNoStaleHash` | internal/adapter/postgres/dataprotection/store.go:48-80 | a skipped row is in its final form if and only if its bag, if any, was sealed for it and it holds no stale token hash |
| `Backfill.StaleHashSkipped` | internal/adapter/postgres/dataprotection/store.go:48-80 | an empty row with a hash, skipped although resealing would clear the hash |
| `Backfill.ResealOne` | internal/app/dataprotection/service.go:130-147 | handling one row finalises it and fails exactly when the row cannot be loaded |
| `Backfill.ResealedSoFar` | internal/app/dataprotection/service.go:121-151 | after any part of the run exactly the visited rows are final, with meanings kept |
| `Backfill.FinalRowsIdle` | internal/app/dataprotection/service.go:155-179 | final rows are scanned and not updated |
| `Backfill.BackfillSecrets` | internal/app/dataprotection/service.go:121-151 | the batch loop ends with the table, update count and failure of handling each listed row once |
| `Backfill.SecondRunUpdatesNothing` | internal/app/dataprotection/service.go:121-151 | a run keeps every row's meaning, fails exactly when a listed row cannot be loaded, and otherwise a second run updates zero rows |
| `LiveBoard.StepKeepsInv` | internal/app/fx/live.go:216-268 | every step keeps the locks exclusive and the cache no older than the last invalidation |
| `LiveBoard.LaterReaderFloor` | internal/app/fx/live.go:216-234 | a reader that enters later is held to at least that invalidation's saves |
| `LiveBoard.BoardIsFresh` | internal/app/fx/live.go:106-143 | a board returned to a reader that locked after a sync invalidated was composed from a read after all of that sync's saves |
| `LiveBoard.SomeCallCanStep` | internal/app/fx/live.go:106-268 | the two locks never deadlock |
| `AnswerCache.OldestIsLeastRecent` | internal/app/assistant/cache.go:55-70 | the entry closest to expiry is the least recently written one |
| `AnswerCache.ScanPicksOldest` | internal/app/assistant/cache.go:55-66 | in every visiting order the scan picks the oldest live entry if and only if that is not the empty key's |
| `AnswerCache.EvictionMakesRoom` | internal/app/assistant/cache.go:55-70 | eviction frees a place in every visiting order if and only if the cache is not full of live entries the oldest of which has the empty key |
| `AnswerCache.EvictionDropsLeastRecent` | internal/app/assistant/cache.go:55-70 | in every visiting order exactly the least recently written live entry goes if and only if it does not have the empty key |
| `AnswerCache.MemoryCache.Get` | internal/app/assistant/cache.go:29-41 | a hit is the latest put for the key and unexpired; an expired entry is dropped, nothing else changes |
| `AnswerCache.MemoryCache.DropExpired` | internal/app/assistant/cache.go:55-66 | over the map in any order, the loop leaves the live entries and ends with the scan's pick |
| `AnswerCache.MemoryCache.Evict` | internal/app/assistant/cache.go:55-70 | refines eviction for some visiting order |
| `AnswerCache.MemoryCache.Put` | internal/app/assistant/cache.go:43-53 | the answer is stored; with room nothing is dropped, otherwise what eviction drops; a positive bound holds unless eviction can find no victim |
| `AnswerCache.EmptyKeyOverflows` | internal/app/assistant/cache.go:43-70 | a cache of one entry that ends up holding two |
| `Reminders.ReminderSlot` | internal/app/document/service.go:693-702 | the tightest slot the days left fall into |
| `Reminders.SlotIsTightest` | internal/app/document/service.go:693-702 | the slot is the smallest the days left fit into, and there is none beyond 30 days |
| `Reminders.SweepServesAll` | internal/app/document/service.go:618-651 | a sweep that does not fail leaves every listed document expired or claimed in its slot |
| `Reminders.ProcessExpiryReminders` | internal/app/document/service.go:618-651 | the sweep stops at its first failure, and its count is the reminders and expiries delivered |
| `Reminders.SweepTightens` | internal/app/document/service.go:676-691 | one sweep, failing or not, sends a document only a tighter slot than its last |
| `Reminders.RemindersTighten` | internal/app/document/service.go:618-691 | over any sequence of sweeps a document with a fixed expiry gets at most one reminder per slot, in ever tighter slots |

## Left out

- I/O failures, aborted transactions and timeouts: a committed step happens whole or, where the source rolls back, not at all.
- Tenancy, branch scope and permission checks, including the branch filter on the capacity update.
- HTTP, wiring, configuration, PDF painting, network clients and the remaining CRUD services: they hold little state of their own.
- Interleaving of other operations that read without a row lock (booking update, feed match): they are atomic steps here. In particular `SeatProtocol` has no booking update, which writes the pax of a booking it read as a draft.
- Departures are there from the start of a run; creating or cloning one with nothing sold is left out.
- The supplier's credit settlement and the account's balance are not part of `InvoicePayments`: a payment they refuse is one that rolls back.
- Booking creation, update, line items, checklist and readiness override exist as steps of `BookingWorld.Step`, not as class methods; line totals and discounts are a single total.
- Documents count as a number of missing kinds in the readiness facts.
- Account opening, account edits and deposit top-ups exist as steps of `TreasuryService.Step`, not as class methods.
- Automatic matching, manual matching and ignoring of feed rows.
- The seat, refresh, transfer, invoice payment and rate board protocols are state machines over values, so aliasing and in-place update inside one step are not captured.
- Login factors, lockout and token formats; hashing and encryption are ideal (injective names, bags that open only with their key and binding).
- The reasons for ending a session (logout, other devices, administrators, password change) are one revocation step over a set of sessions.
- The generation counter of the session cache is unbounded, without 64-bit wrap-around.
- Passport backfill, whose rewrite happens inside SQL.
- Revenue series, method breakdowns and percentages, which reuse the total.
- Composition of the board from its sources, and when a source is due.
- The listing limit of the reminder sweep, and documents whose expiry transition is refused.
- Times are integers, dates are day numbers, and time zones are left out. Text length limits, date parsing and currency codes are flags on the input.
- Import rows carry one passport and one birth date in parsed form; ids and timestamps are left out, and the lookup among several matches takes the first.
- A row error is recorded per row, not per field, and entity types other than customers are left out.
- The Unicode script and mark tables are parameters, and the letters of the form tables are required to be Arabic in them.
- Backfill.SaveIsSafe: does not cover a row that moves to another branch between read and save, because no code moves one.
- Keys of the answer cache are numbers, one of them standing for the empty string; only that distinction matters.
