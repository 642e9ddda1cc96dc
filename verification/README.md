# Seat reservations, modelled and proved

A Dafny model of a ticketing backend whose state lives in four places: a Postgres table of reservations,
Redis keys changed by Lua scripts, per-process caches, and the load generator that drives them.
The table's sum of active seats decides who may reserve; a virtual queue decides who may try; sold-out and
idempotency caches sit in front of both.

Each part is modelled at one or two grains.

* **Interleaved machines.** `ReservationProtocol` (with `ReservationLoad`), `VirtualQueueProtocol`, `SweepLock`, `SoldOutMarkers`,
  `SoldOutRaces`, `SimulationEngine` and `SimulationRegistry` break operations at every point where another client can run.
  A run is a sequence of states and a sequence of enabled actions; the theorems quantify over all runs.
* **Whole calls.** `ReservationStore`, `ReservationCalls` (with `ReservationAnswers`), `VirtualQueueScripts` and
  `VirtualQueueService` give one transaction, script or service call as one step. Their functions are the
  specifications of the classes (`PostgresReservationRepository`, `EventQueue`, `QueueRepository`, `QueueService`,
  `ReservationRepository`, `ReservationService`, the two caches, `Runner`, `Registry`), which change their fields in
  the order the Go and Lua code does; what each function answers is then proved from the state it is given.

`ReserveUninterrupted` joins the two grains for reserve, and `JourneyInFleet` for the load generator's users.

## How to read the model

* Users and events are numbers. Both are UUIDs of fixed text width, so the numbers keep the order Redis uses
  to break ties. A reservation's id is its position in the table; ids are only ever compared.
* There is one integer clock. A TTL key is gone when the clock reaches its expiry (queue) or passes it
  (sold-out markers, cached items, sweep lock). The upper bounds hold for either reading; that the twenty seconds
  of `StalenessIsTight` and the five of `SplitUnblockReseeds` are reached to the second is said of the second one.
* A clock reading that Go takes before it sends a script is a step of its own: the script of `Enqueue` runs with
  the reading its caller took, while heartbeats and whitelist fields get their TTL from Redis as the script runs.
* A SQL statement or a Lua script is atomic, `FOR UPDATE` excludes per row, and the unique index on
  (event, user, key) holds through `ON CONFLICT`. A transaction's `now()` is the clock at BEGIN; the sum of a
  reserve reads the table as it is after the lock is granted.
* `uint32` additions drop the carry, `int64(cap) - size` keeps the low 64 bits, and a sum beyond `uint32` fails
  in `Scan`.
* History fields (`peak`, `late`, `wrapped`, `answers`, `joined`, `lastBlock`, `freed`, `clean`, an override's owner) record what
  happened. No step reads them.

## What turned out to be false, and when it is true

* **No overselling** fails in three ways, and in no other: `BoundExactly` counts the active seats together with those
  of a reserve that has passed its checks. A capacity can be lowered below what is sold. A confirm that begins
  before its hold expires and commits after adds its seats (`LateConfirmOversells`), even when they fit among the
  active ones, if they do not fit beside the reserve in flight (`PromiseOversells`, `ConfirmKeepsBoundExactly`).
  And because `now()` may be stale, the locked sum may count an expired hold and its replacement together,
  so with capacities near 2^31 the `uint32` addition can carry and let a request through
  (`StaleSumCarries`). `UserCheckExact` and `EventCheckExact` say exactly when a check still decides the true
  inequality, and `CarryNeedsManySeats` that a carry needs about four billion seats issued for one event.
* **isCapped** is wrong in four ways, all told apart by `IsCappedExact`: on a replay it counts seats that are never
  inserted (`ReplayMiscounts`), above the quota it says false before any sum is read (`GuardMiscounts`), and a sum
  or a comparison beyond `uint32` misreports.
* **A replay of a known key** is refused while the event is marked sold out (`ReplayAnswersExactly`,
  `KnownKeyRefused`).
* **A racing key** can be answered with the other request's quantity (`RacingKeysMismatch`,
  `AnswerMatchesExactly`); with atomic calls it cannot (`SuccessMatches`).
* **The fast reject** can refuse a request the database would take while an expired hold waits for the sweep
  (`FastRejectCanBeWrong`); `FastRejectRight` and `FastRejectWrongExactly` draw the line.
* **Unblocking** in two steps can be undone by a check in between, exactly when the flag is up
  (`SplitUnblockReseeds`); an undisturbed one is effective (`UndisturbedIsClean`).
* **A replica answers blocked for an event with room**, and nobody is on the way to correct it, in four ways and in no
  other (`MisleadsExactly`, `StandsExactly`): a late block, in either half (`StaleBlockHappens`); the end of the last
  unblock, which reaches neither another replica's LRU (`OtherReplicaStands`) nor an entry that a check has put back
  between its halves (`ReseededReplicaStands`, `UnblockLeavesExactly`); and a capacity raised from the command line,
  which unblocks nothing.
* **A run's cap override** is its own among the runs of one registry, but a run from the command line or another
  server writes and clears the same key (`OutsideTakesOverride`, `OverrideIsOwned`).
* **Overtaking.** Nobody is admitted out of the order of the keys, but the order of the keys is not the order of
  arrival: a call that read the clock early and runs its script late goes ahead of users who already wait
  (`OvertakingHappens`). `AheadGrowsExactly` and `OvertakenExactly` say when that can happen.
* **A waiting user** who pings faithfully is still swept out of the queue when the score lapses, and then can
  neither enqueue again nor be admitted while the pings go on (`EnqueueEvictsExactly`, `StrandedWhilePinging`,
  `StrandingHappens`).
* **The promoter** does nothing when the free slots reach 2^63 (`PromoterSettlesExactly`, `HugeCapStuck`).
* **Waiting with a slot in hand.** An Enqueue whose whitelist check is out of date when its script runs leaves the
  user queued and whitelisted at once: two racing Enqueues do it (`RacingEnqueuesOverlap`), and so does one that
  races the promoter (`PromotionOverlaps`). No other step does (`ApartStepExactly`, `ApartExactly`).

## Model

| member | source | states |
|---|---|---|
| ReservationTheorems.NoOverselling | backend/repository/reservations/postgresReservationRepository.go:75-234 | in every state of every interleaving an event's active seats are at most its peak capacity plus the seats of late confirms, and a user's at most the quota plus that user's late seats, unless an accepted check carried |
| ReservationTheorems.NeverOversold | backend/repository/reservations/postgresReservationRepository.go:75-234 | capacity never lowered, no late confirm and fewer than 2^32 seats issued: active seats stay within capacity and within the per-user quota |
| ReservationTheorems.PeakIsCapacity | backend/handler/admin/simulate.go:84-88 | in a run that never lowers an event's capacity the peak is the current capacity |
| ReservationTheorems.CarryNeedsManySeats | backend/repository/reservations/postgresReservationRepository.go:117-122 | a check of an event carries only after nearly 2^32 seats have been issued for it |
| ReservationLoad.BoundExactly | backend/repository/reservations/postgresReservationRepository.go:75-201 | over every run: active and promised seats of an event, or of one user, stay within the capacity or quota of the moment if and only if no step was a check that carried, a late confirm without room beside the promise, or a lowered capacity |
| ReservationLoad.BreaksExactly | backend/repository/reservations/postgresReservationRepository.go:75-201 | the same for one step, over every action |
| ReservationLoad.ConfirmKeepsBoundExactly | backend/repository/reservations/postgresReservationRepository.go:182-191 | a committing confirm keeps a bound on the event's active and promised seats, or on one user's, if and only if its hold has not expired, the bound is not about it, or the seats still fit beside the promise |
| ReservationLoad.CommitFades | backend/repository/reservations/postgresReservationRepository.go:124-158 | an insert never raises active and promised seats |
| ReservationLoad.PromiseComesDue | backend/repository/reservations/postgresReservationRepository.go:116-158 | unless its key is taken, a checked reserve that inserts at once turns the whole load into active seats |
| ReservationLoad.PromiseOversells | backend/repository/reservations/postgresReservationRepository.go:100-191 | a run in which a late confirm commits with one of two seats active, beside a checked reserve of two, and three are sold |
| ReservationTheorems.LateConfirmOversells | backend/repository/reservations/postgresReservationRepository.go:182-191 | a reachable state sells two seats of one because of a late confirm |
| ReservationTheorems.StaleSumCarries | backend/repository/reservations/postgresReservationRepository.go:102-122 | a reachable state oversells with no late confirm: a stale now() makes the sum carry |
| ReservationTheorems.ReserveUninterrupted | backend/repository/reservations/postgresReservationRepository.go:75-162 | the steps begin, lock, sum, commit with nothing in between give the table, the answer, the kind of refusal and the isCapped of the one-step transaction |
| ReservationProtocol.InvHolds | backend/repository/reservations/postgresReservationRepository.go:75-201 | the inductive invariant over all runs: one lock holder per event, on-time seats within the limits, and every check passed but not yet inserted still covered |
| ReservationProtocol.CheckCovers | backend/repository/reservations/postgresReservationRepository.go:100-122 | a check that passes without a carry leaves room for the request among the on-time seats, seen from its own now() |
| ReservationProtocol.StepShrinks | backend/repository/reservations/postgresReservationRepository.go:164-234 | confirm, release, sweep, abort and ticks never add on-time seats as seen from a clock reading already taken |
| ReservationProtocol.CommitAdds | backend/repository/reservations/postgresReservationRepository.go:124-158 | a committing reserve adds at most its own quantity, to its own event and user only |
| ReservationProtocol.TotalIsOnTimePlusLate | backend/repository/reservations/postgresReservationRepository.go:102-112 | the SQL sum is the on-time seats plus the late ones |
| ReservationHistory.SettledForEver | backend/repository/reservations/postgresReservationRepository.go:164-214 | over whole runs confirmed, released and expired are absorbing and a row's identity never changes |
| ReservationHistory.SettledExactly | backend/repository/reservations/postgresReservationRepository.go:164-214 | over every run a row is confirmed, released or expired if and only if its owner's confirm or release of a hold live at its own BEGIN, or a sweep begun after its expiry, made it so |
| ReservationHistory.SettledByExactly | backend/repository/reservations/postgresReservationRepository.go:164-214 | the same for one step, over every action |
| ReservationHistory.LateExactly | backend/repository/reservations/postgresReservationRepository.go:182-191 | a confirm is recorded as late exactly when it commits at or after its own hold's expiry |
| ReservationHistory.WrappedExactly | backend/repository/reservations/postgresReservationRepository.go:117-122 | an event is recorded as wrapped exactly when an accepted check of it goes beyond 32 bits |
| ReservationHistory.PeakExactly | backend/handler/admin/simulate.go:84-88 | the peak is the largest capacity an event has had |
| ReservationHistory.LookedUpMatches | backend/service/reservations/main.go:54-64 | an answer looked up in the cache or the table has the quantity asked for |
| ReservationHistory.StampsMatchStatus | backend/repository/reservations/postgresReservationRepository.go:164-214 | in every state confirmed_at is set exactly for confirmed rows and released_at exactly for released and expired ones |
| ReservationHistory.ConfirmMeansConfirmed | backend/service/reservations/main.go:124-133 | a confirm succeeds if and only if the caller then holds a confirmed row, and changes only a live hold |
| ReservationHistory.ConfirmReplays | backend/service/reservations/main.go:124-133 | once confirmed, every later confirm by the owner succeeds, everyone else's and every release fails, and none changes the table |
| ReservationHistory.ExactlyOnce | backend/repository/reservations/postgresReservationRepository.go:126-162 | under any interleaving all successful answers for a key carry the id and quantity of the one row that has it |
| ReservationHistory.KeysHold | backend/migrations/000006_scope_idempotency_key_per_event_user.up.sql:9-11 | at most one row per event, user and key in every state, and every cached item, pending reply and past answer names its row |
| ReservationHistory.AnswerMatchesExactly | backend/repository/reservations/postgresReservationRepository.go:142-161 | a commit answers with the requested quantity if and only if the key was free or named that quantity |
| ReservationHistory.RacingKeysMismatch | backend/service/reservations/main.go:54-106 | a reachable state where a request for two seats was answered with one |
| ReservationStore.UserCheckExact | backend/repository/reservations/postgresReservationRepository.go:117-119 | the uint32 user addition decides the true inequality if and only if it does not carry |
| ReservationStore.EventCheckExact | backend/repository/reservations/postgresReservationRepository.go:120-122 | so does the event addition, unless the carry's remainder itself exceeds the capacity |
| ReservationStore.CheckDecides | backend/repository/reservations/postgresReservationRepository.go:111-122 | without a carry the checks after the sum accept exactly positive requests that fit quota and capacity, and report a full event exactly |
| ReservationStore.ReserveDecides | backend/repository/reservations/postgresReservationRepository.go:75-162 | a reserve succeeds exactly when it fits; then it appends one hold, or on a taken key changes nothing and answers with that row; a refusal changes nothing |
| ReservationStore.RefusalExact | backend/repository/reservations/postgresReservationRepository.go:82-149 | which refusal a reserve reports, from the sums alone: unknown event, sum beyond uint32, and without a carry the quota before the capacity before the empty request, each if and only if |
| ReservationStore.FreshHold | backend/repository/reservations/postgresReservationRepository.go:124-145 | the inserted row is held for the request, stamped with the later clock reading, and expires ten minutes after it |
| ReservationStore.ReserveInserts | backend/repository/reservations/postgresReservationRepository.go:126-161 | carry or not, a reserve under a free key either changes nothing or appends and returns its own hold |
| ReservationStore.IsCappedExact | backend/repository/reservations/postgresReservationRepository.go:96-160 | for every request, isCapped tells the truth about the resulting table if and only if: above the quota, the event has room; never for a sum beyond uint32; for a sum in uint32 without a carry, the call is refused, is no replay, or the replayed seats make no difference; with a carry, it is refused or what is left over equals the capacity |
| ReservationStore.ReplayMiscounts | backend/repository/reservations/postgresReservationRepository.go:160-160 | a replay that reports a full event with a seat free |
| ReservationStore.GuardMiscounts | backend/repository/reservations/postgresReservationRepository.go:96-98 | a request above the quota that reports room in a full event |
| ReservationStore.UpdateMovesSeats | backend/repository/reservations/postgresReservationRepository.go:164-201 | at every time and for every user, a confirm makes the hold's seats permanent, a release gives them back, a refused update changes nothing |
| ReservationStore.UpdateDoes | backend/repository/reservations/postgresReservationRepository.go:164-201 | which updates are refused and as what, and that a confirm or release changes exactly its row's status and that status's own stamp |
| ReservationStore.ReleaseUndoesReserve | backend/repository/reservations/postgresReservationRepository.go:75-201 | reserve then release before expiry leaves every sum of seats as it was |
| ReservationStore.DueRowsAreTheChangedOnes | backend/repository/reservations/postgresReservationRepository.go:204-231 | the counts grouped by event add up to the number of rows the sweep changes |
| ReservationStore.DueEventsLostAHold | backend/repository/reservations/postgresReservationRepository.go:204-213 | the events a sweep names are exactly those of the rows it changes |
| ReservationStore.PostgresReservationRepository.ReserveEvent | backend/repository/reservations/postgresReservationRepository.go:75-162 | the imperative transaction computes the specified table, result and isCapped and keeps the constraints and the unique index |
| ReservationStore.PostgresReservationRepository.UpdateReservation | backend/repository/reservations/postgresReservationRepository.go:164-201 | confirm and release change exactly the caller's live hold, else report not found or an invalid status |
| ReservationStore.PostgresReservationRepository.RefreshEventStatus | backend/repository/reservations/postgresReservationRepository.go:203-234 | every hold that has run out becomes expired and stamped, no other row changes, and the loop returns exactly the distinct events that lost a hold and a total equal to the number of changed rows |
| ReservationStore.PostgresReservationRepository.GetReservationByIdempotencyKey | backend/repository/reservations/postgresReservationRepository.go:236-258 | finds the one row with the key, or fails exactly when there is none |
| ReservationTable.SweepConservesSeats | backend/repository/reservations/postgresReservationRepository.go:203-214 | the sweep leaves every event's and user's active seats unchanged now and at every later time |
| ReservationTable.SweptExpires | backend/repository/reservations/postgresReservationRepository.go:203-214 | the sweep turns every held row with expires_at <= now into an expired one with released_at now, and leaves every other row as it is |
| ReservationTable.PendingIsActive | backend/repository/reservations/postgresReservationRepository.go:60-73 | with no expired hold left unswept, seats held or confirmed are the active seats |
| ReservationCalls.MarkersAlwaysSound | backend/service/reservations/main.go:47-122 | over all runs of reserve, confirm, release, sweep, capacity change, check and expiry calls, an event marked sold out has holds and sales filling its capacity, and cached items name their rows |
| ReservationCalls.FastRejectRight | backend/service/reservations/main.go:48-52 | with sound markers and no expired hold unswept, a blocked event's request would also be refused by the database |
| ReservationCalls.FastRejectWrongExactly | backend/service/reservations/main.go:48-52 | some request for the event would be accepted by the database if and only if its active seats are below capacity |
| ReservationCalls.FastRejectCanBeWrong | backend/repository/reservations/main.go:219-235 | a run of calls ends with a marked event whose only seat is free |
| ReservationCalls.SuccessMatches | backend/service/reservations/main.go:54-110 | with atomic calls a success has the requested quantity and names the row that has the key |
| ReservationCalls.ReplayAnswersExactly | backend/service/reservations/main.go:48-64 | a replayed key changes no row and gets its reservation back if and only if the event is not blocked and the quantity agrees |
| ReservationCalls.KnownKeyRefused | backend/service/reservations/main.go:48-52 | a run of calls after which a known key with its own quantity is refused |
| ReservationCalls.ReserveAndSlot | backend/service/reservations/main.go:47-122 | the slot is given back and the next user admitted exactly on a fresh success, a capacity or quota refusal, or the fast reject |
| ReservationAnswers.ReserveTurnsAway | backend/service/reservations/main.go:47-72 | the order of the service's tests, their answers and what they leave alone: sold out, key found, and Err(QueueInProgress) if and only if neither applies and the user holds no slot |
| ReservationAnswers.ReserveCallAnswers | backend/service/reservations/main.go:74-110 | what an admitted request is answered, each outcome if and only if, from the sums alone unless one carries |
| ReservationAnswers.ReserveCallInserts | backend/service/reservations/main.go:66-86 | only an admitted request inserts, and it inserts one hold of its own |
| ReservationAnswers.EveryRowHadASlot | backend/service/reservations/main.go:66-86 | over every run of calls each row in the table was inserted by a reserve of its user, who held a slot at that call |
| ReservationAnswers.ReserveRecords | backend/service/reservations/main.go:87-106 | what an admitted request leaves in the caches: the marker for 15 and 5 seconds exactly when isCapped, the item for a minute exactly on a keyed success |
| ReservationAnswers.FillingMarks | backend/service/reservations/main.go:87-89 | the reserve that fills an event leaves it marked |
| ReservationAnswers.FoundExactly | backend/repository/reservations/main.go:94-109 | the key lookup finds something exactly when a row has the key, and then that row |
| ReservationAnswers.ConfirmCallAnswers | backend/service/reservations/main.go:124-133 | the service confirm succeeds if and only if the caller then holds a confirmed reservation, changes nothing but a live hold of the caller, and nothing at all on a confirmed row |
| ReservationAnswers.ConfirmCallReplays | backend/service/reservations/main.go:124-133 | over every run of calls, once confirmed: the owner succeeds, everyone else fails, nothing changes |
| ReservationAnswers.ReleaseCallAnswers | backend/repository/reservations/main.go:128-137 | a release succeeds exactly on the caller's live hold, and then lifts that event's markers and no others |
| ReservationAnswers.SweepCallDoes | backend/repository/reservations/main.go:184-191 | a sweep expires the holds that have run out and lifts the markers of exactly the events that lost one |
| ReservationAnswers.CheckReseeds | backend/repository/reservations/main.go:219-235 | a check leaves its answer in the LRU, for five seconds if it had to ask Redis |
| ReservationCalls.ReserveKeepsSettled | backend/service/reservations/main.go:47-122 | a reserve call on any path keeps the queue free of unused slots |
| ReservationCalls.CappedIsFull | backend/repository/reservations/postgresReservationRepository.go:116-161 | off a replay, isCapped implies that holds and sales fill the event |
| ReservationService.ReservationService.ReserveEvent | backend/service/reservations/main.go:47-111 | the orchestration over database, both caches and the queue equals the specified call |
| ReservationService.ReservationService.ReleaseQueueSlot | backend/service/reservations/main.go:113-122 | drops the user's whitelist field and admits one user from the queue |
| ReservationService.ReservationService.ConfirmReservation | backend/service/reservations/main.go:124-133 | the replay-tolerant confirm equals the specified call |
| ReservationService.ReservationRepository.IsBlockEvent | backend/repository/reservations/main.go:219-235 | answers whether either level is alive, re-seeding the LRU from Redis |
| ReservationService.ReservationRepository.BlockEvent | backend/repository/reservations/main.go:199-207 | marks the event in both levels and touches nothing else |
| ReservationService.ReservationRepository.UnblockEvent | backend/repository/reservations/main.go:209-217 | removes the event from both levels and touches nothing else |
| ReservationService.ReservationRepository.GetReservationByIdempotencyKey | backend/repository/reservations/main.go:94-109 | the cached item if alive, else the table's row |
| ReservationService.ReservationRepository.ReleaseReservation | backend/repository/reservations/main.go:128-137 | a successful release unblocks its event, a failed one changes nothing |
| ReservationService.ReservationRepository.RefreshEventStatus | backend/repository/reservations/main.go:168-197 | runs only with the lock, expires the due holds, unblocks exactly their events, and frees the lock |
| ReservationCaches.RemoteCacheReservationRepository.LockRefreshEventStatus | backend/repository/reservations/remoteCacheReservationRepository.go:41-56 | succeeds exactly when time remains and the lock is free, and then lives for the deadline plus the margin |
| ReservationCaches.RemoteCacheReservationRepository.ReleaseRefreshEventStatus | backend/repository/reservations/remoteCacheReservationRepository.go:31-60 | deletes only a lock that carries the caller's token |
| SoldOutMarkers.BoundedStaleness | backend/repository/reservations/main.go:199-235 | with both halves of block and unblock as steps of their own, no replica answers blocked later than 15 + 5 seconds after the last block, later than 5 seconds after any replica's DEL with no later block, or at all if its own unblock since then was clean |
| SoldOutMarkers.BlockedIsRecent | backend/repository/reservations/main.go:199-235 | the same bound told by the steps of the run: within 15 + 5 seconds of the last half of a block and within 5 of every DEL since |
| SoldOutMarkers.HistoryExactly | backend/repository/reservations/main.go:199-217 | the history fields record those steps |
| SoldOutMarkers.UnblockLeavesExactly | backend/repository/reservations/main.go:199-235 | after the second half of any unblock a replica answers blocked if and only if it has itself blocked or re-seeded at most five seconds ago and neither unblocked nor evicted since |
| SoldOutMarkers.UnblockingReplicaExactly | backend/repository/reservations/main.go:209-235 | for the unblocking replica, if and only if that happened between the two halves |
| SoldOutMarkers.UndisturbedIsClean | backend/repository/reservations/main.go:209-217 | an unblock between whose halves the replica neither blocked nor re-seeded leaves that replica answering false at once |
| SoldOutMarkers.CleanUntilBlocked | backend/repository/reservations/main.go:199-235 | and it answers false until the next block by any replica |
| SoldOutMarkers.StalenessIsTight | backend/repository/reservations/main.go:230-232 | a run in which another replica still answers blocked at second twenty, a key living through its expiry |
| SoldOutRaces.MisleadsExactly | backend/repository/reservations/main.go:199-235 | with an LRU per replica, a shared flag, and both halves of block and unblock beside the interleaved reservations: a step makes a replica answer blocked for an event with room and no unblock unfinished, where it did not, if and only if it is either half of a block landing on such an event, the last half of the last unblock while that replica has an entry of its own, or a command-line capacity raise on a full event |
| SoldOutRaces.StandsExactly | backend/repository/reservations/main.go:199-235 | over every run: a replica does so in a state if and only if such a step made it and it has done so since |
| SoldOutRaces.EntryExactly | backend/repository/reservations/main.go:219-235 | over every run: a replica has an entry of its own if and only if it blocked the event or a check there found the flag, and nothing removed the entry since |
| SoldOutRaces.RoomIsOwed | backend/repository/reservations/main.go:128-197 | every transaction that makes room in an event owes it an unblock |
| SoldOutRaces.StaleBlockHappens | backend/service/reservations/main.go:87-89 | a run in which a reserve's block lands after the release of its seat has unblocked the event |
| SoldOutRaces.OtherReplicaStands | backend/repository/reservations/main.go:209-235 | a run in which everything is in order and another replica's entry outlives the unblock |
| SoldOutRaces.ReseededReplicaStands | backend/repository/reservations/main.go:209-235 | a run in which a check between the two halves of an unblock leaves the unblocking replica answering blocked |
| SoldOutMarkers.SplitUnblockReseeds | backend/repository/reservations/main.go:209-235 | a check by the unblocking replica between the two halves puts its marker back, for the LRU's five seconds, if and only if the Redis flag was up |
| SweepLock.MutualExclusion | backend/repository/reservations/remoteCacheReservationRepository.go:41-56 | at most one replica is sweeping before its deadline, and the lock stays taken until the margin after it |
| SweepLock.ReleaseFreesOwn | backend/repository/reservations/remoteCacheReservationRepository.go:31-60 | a release frees a taken lock if and only if it carries the lock's token |
| SweepLock.LateReleaseHarmless | backend/repository/reservations/remoteCacheReservationRepository.go:31-60 | another replica's late release leaves the working holder's lock and work alone |
| VirtualQueueScripts.ChosenAreFirst | backend/repository/virtualqueues/remoteCacheVirtualQueueRepository.go:240-267 | one pass admits exactly the first k live members in queue order, or all if fewer, and stops reading at the k-th |
| VirtualQueueScripts.EventQueue.AdmitBatch | backend/repository/virtualqueues/remoteCacheVirtualQueueRepository.go:249-266 | the inner loop over one batch extends the scanned prefix, admitting its live members and dropping the others |
| VirtualQueueScripts.EventQueue.AdmitBatches | backend/repository/virtualqueues/remoteCacheVirtualQueueRepository.go:240-268 | for any batch size of at least one the nested loop terminates in the state of the single pass and returns its users |
| VirtualQueueScripts.EventQueue.TryWhitelistEventQueue | backend/repository/virtualqueues/remoteCacheVirtualQueueRepository.go:218-291 | the whole script: nothing without room, else the first min(desired, room, live) members, leaving all other members and heartbeats as they were |
| VirtualQueueScripts.EventQueue.EnqueueScript | backend/repository/virtualqueues/remoteCacheVirtualQueueRepository.go:106-135 | with the caller's clock reading as argument: sweeps the scores lapsed by then, refuses a live heartbeat with -1, else queues at that reading + QueueTTL and says whether the member is new |
| VirtualQueueScripts.EventQueue.DequeueScript | backend/repository/virtualqueues/remoteCacheVirtualQueueRepository.go:152-182 | removes the user everywhere and reports exactly what was removed |
| VirtualQueueScripts.EventQueue.PingScript | backend/repository/virtualqueues/remoteCacheVirtualQueueRepository.go:184-216 | a whitelisted user's remaining time, else a refreshed heartbeat, else not alive |
| VirtualQueueScripts.EventQueue.DeleteWhitelistedUserTTL | backend/repository/virtualqueues/remoteCacheVirtualQueueRepository.go:319-329 | removes one whitelist field and says whether it was there |
| VirtualQueueScripts.EnqueueDoes | backend/repository/virtualqueues/remoteCacheVirtualQueueRepository.go:114-120 | which members an enqueue leaves, exactly, whatever the sorted set held and whatever time it carries |
| VirtualQueueScripts.EnqueueAnswers | backend/repository/virtualqueues/remoteCacheVirtualQueueRepository.go:114-120 | each of the three answers if and only if, and the heartbeat that is set, from the moment the script runs |
| VirtualQueueScripts.DequeueDoes | backend/repository/virtualqueues/remoteCacheVirtualQueueRepository.go:158-162 | dequeue leaves every other member and no trace of the user, in order |
| VirtualQueueScripts.DequeueUndoesEnqueue | backend/repository/virtualqueues/remoteCacheVirtualQueueRepository.go:106-163 | a newcomer who enqueues and dequeues leaves the keys as the score sweep alone would |
| VirtualQueueScripts.PingKeepsAlive | backend/repository/virtualqueues/remoteCacheVirtualQueueRepository.go:184-199 | after a ping a waiter is alive at a later time if and only if it was alive and less than the heartbeat's time has passed |
| VirtualQueueScripts.PingAndDequeueAnswer | backend/repository/virtualqueues/remoteCacheVirtualQueueRepository.go:152-199 | the numbers the two scripts return, by where the user was |
| VirtualQueueProtocol.AdmittedHoldsSlot | backend/repository/virtualqueues/remoteCacheVirtualQueueRepository.go:253-258 | an admitted user's next ping answers the whole whitelist time, the slot lasts exactly that long, and no heartbeat or queue entry is left |
| VirtualQueueScripts.ScanOne | backend/repository/virtualqueues/remoteCacheVirtualQueueRepository.go:249-265 | one member of the batch, alive or dead, moves the state of the scan one member on |
| VirtualQueueScripts.TryWhitelistDoes | backend/repository/virtualqueues/remoteCacheVirtualQueueRepository.go:227-268 | an admission keeps the set sorted and distinct and every TTL in the future |
| VirtualQueueProtocol.GateBound | backend/repository/virtualqueues/main.go:106-126 | from any point of a run the whitelist stays within the larger of its size there and the largest cap since, and from the start within that cap |
| VirtualQueueProtocol.GateStep | backend/repository/virtualqueues/remoteCacheVirtualQueueRepository.go:227-258 | no step grows the whitelist at or above the cap, or past it, whatever the promoter's reads and whoever is in both places |
| VirtualQueueProtocol.NoLostEvent | backend/repository/virtualqueues/remoteCacheVirtualQueueRepository.go:57-143 | a non-empty queue is in active_events or some Enqueue sits between its script and its SADD |
| VirtualQueueProtocol.HeartbeatsAreEvidence | backend/repository/virtualqueues/remoteCacheVirtualQueueRepository.go:106-199 | a live heartbeat means queued with score enqueue time + QueueTTL, or that score has lapsed |
| VirtualQueueProtocol.AdmittedAreAlive | backend/repository/virtualqueues/remoteCacheVirtualQueueRepository.go:253-265 | no member without a heartbeat is admitted |
| VirtualQueueProtocol.AdmittedByExactly | backend/repository/virtualqueues/remoteCacheVirtualQueueRepository.go:249-265 | a step admits exactly the users it takes out of the queue alive, and nobody else gets a slot |
| VirtualQueueProtocol.JoinedExactly | backend/repository/virtualqueues/remoteCacheVirtualQueueRepository.go:123-135 | the recorded clock reading is that of the script that last queued the user |
| VirtualQueueProtocol.PlaceKept | backend/repository/virtualqueues/remoteCacheVirtualQueueRepository.go:114-135 | while a user stays queued and alive its entry is fixed, and whoever has a smaller score had it, or had read the clock for it, when the wait began |
| VirtualQueueProtocol.AheadGrowsExactly | backend/repository/virtualqueues/remoteCacheVirtualQueueRepository.go:114-135 | a step puts somebody new ahead of a score if and only if it is the script of a newcomer with an older clock reading |
| VirtualQueueProtocol.OvertakenExactly | backend/repository/virtualqueues/remoteCacheVirtualQueueRepository.go:123-135 | a waiting user can still be overtaken by somebody new, in some continuation of the run, if and only if another user's call has read the clock early enough and has not run its script |
| VirtualQueueRaces.OvertakingHappens | backend/repository/virtualqueues/remoteCacheVirtualQueueRepository.go:126-135 | a run in which a slow call is queued ahead of a waiting user and admitted first |
| VirtualQueueProtocol.NoOvertaking | backend/repository/virtualqueues/remoteCacheVirtualQueueRepository.go:240-267 | nobody with a larger key is admitted before the step that removes the waiting user, and whoever is admitted meanwhile was ahead by score, had read the clock for that by the start of the wait, or ties with a smaller id |
| VirtualQueueProtocol.EnqueueEvictsExactly | backend/repository/virtualqueues/remoteCacheVirtualQueueRepository.go:114-117 | which entries an enqueue takes out: scores lapsed by the caller's clock reading, heartbeat or not, and the caller's own dead entry |
| VirtualQueueProtocol.StrandedWhilePinging | backend/repository/virtualqueues/remoteCacheVirtualQueueRepository.go:114-199 | a waiter evicted alive stays refused and unadmitted for as long as it keeps pinging |
| VirtualQueueProtocol.RunWellFormed | backend/repository/virtualqueues/remoteCacheVirtualQueueRepository.go:106-268 | over every run the sorted set stays in order and without repeats and every TTL in the future |
| VirtualQueueProtocol.ApartStepExactly | backend/service/virtualqueues/main.go:49-61 | from a state in which nobody both waits and holds a slot, a step breaks that if and only if it is the script of a call whose whitelist check is out of date, for a user without a heartbeat |
| VirtualQueueProtocol.ApartExactly | backend/service/virtualqueues/main.go:49-61 | over every run: nobody both waits and holds a slot up to a state if and only if no such script has run |
| VirtualQueueRaces.StrandingHappens | backend/repository/virtualqueues/remoteCacheVirtualQueueRepository.go:114-114 | a run with the default times that strands a pinging waiter |
| VirtualQueueService.NoWedge | backend/repository/virtualqueues/main.go:86-132 | after a promoter tick, until a whitelist expiry or cap raise, the whitelist is full or nobody alive waits |
| VirtualQueueService.CallSettles | backend/service/virtualqueues/main.go:48-90 | every call that is no expiry or cap raise keeps that, and every call keeps a non-empty queue tracked and nobody both queued alive and whitelisted |
| VirtualQueueService.PromoterSettlesExactly | backend/repository/virtualqueues/main.go:92-128 | a tick on a tracked event restores it if and only if it held already or the free slots fit int64 |
| VirtualQueueService.TickTracks | backend/repository/virtualqueues/main.go:93-104 | after a tick an event is tracked exactly if it was and its queue was not empty |
| VirtualQueueService.TickAdmits | backend/repository/virtualqueues/main.go:106-126 | a tick admits exactly the first live waiters, one for each free slot, while the free slots fit int64 |
| VirtualQueueService.HugeCapStuck | backend/repository/virtualqueues/main.go:118-121 | a cap of 2^63 with one live waiter that a tick leaves waiting |
| VirtualQueueService.EnqueueCallSettles | backend/service/virtualqueues/main.go:48-74 | a service enqueue never leaves a slot free beside a live waiter |
| VirtualQueueService.EnqueueCallAnswers | backend/service/virtualqueues/main.go:48-74 | what a service enqueue answers: a slot in hand and its remaining time, a refusal exactly on a heartbeat without one, else the whole whitelist time exactly when admitted, or 0 |
| VirtualQueueService.NewcomerWalksIn | backend/service/virtualqueues/main.go:57-65 | with a slot free and nobody alive waiting a newcomer is admitted at once |
| VirtualQueueService.DequeueCallSettles | backend/service/virtualqueues/main.go:76-90 | nor does a dequeue, which admits one user for the slot it frees |
| VirtualQueueService.DequeuePassesOn | backend/service/virtualqueues/main.go:76-90 | a slot holder's dequeue passes the slot to the first live waiter, anyone else's touches no slot |
| VirtualQueueService.ReleaseSlotSettles | backend/service/reservations/main.go:113-122 | nor does giving a slot back |
| VirtualQueueService.SlotPassesOn | backend/service/reservations/main.go:113-122 | a slot given back goes to the first live waiter if the gate is not above its cap, and no other slot changes hands |
| VirtualQueueRaces.RacingEnqueuesOverlap | backend/service/virtualqueues/main.go:49-61 | a run in which two Enqueues by one user leave it in both places, and the next admission fills no slot |
| VirtualQueueRaces.PromotionOverlaps | backend/service/virtualqueues/main.go:49-61 | a run in which one Enqueue in flight and the promoter are enough |
| VirtualQueueRepository.QueueRepository.PromoteActiveEvents | backend/repository/virtualqueues/main.go:86-132 | every listed event gets exactly one promoter turn and no other event changes |
| VirtualQueueRepository.QueueRepository.PromoteEvent | backend/repository/virtualqueues/main.go:93-128 | one turn with its clamps equals the specified tick |
| VirtualQueueRepository.QueueRepository.UntrackIdleEvent | backend/repository/virtualqueues/remoteCacheVirtualQueueRepository.go:57-79 | untracks exactly a tracked event whose queue is empty |
| VirtualQueueRepository.QueueRepository.Enqueue | backend/repository/virtualqueues/remoteCacheVirtualQueueRepository.go:123-150 | runs the script, tracks the event even when the script refuses, and fails exactly on a live heartbeat |
| VirtualQueueRepository.OutcomeExactly | backend/repository/virtualqueues/remoteCacheVirtualQueueRepository.go:145-149 | an enqueue is refused exactly on a live heartbeat, and otherwise tells whether the queue had no place for the user |
| VirtualQueueRepository.QueueService.Enqueue | backend/service/virtualqueues/main.go:48-74 | the sequence of scripts gives the state and the answer of the specified call |
| VirtualQueueRepository.QueueService.Dequeue | backend/service/virtualqueues/main.go:76-90 | the sequence equals the specified call |
| VirtualQueueRepository.QueueService.Ping | backend/service/virtualqueues/main.go:35-46 | alive exactly when whitelisted or heartbeating, the slot's remaining time, and sold out exactly when either marker level is alive, re-seeding the LRU |
| SimulationEngine.CountersExact | backend/simulation/engine.go:206-308 | at every moment each counter and each error cause is the number of users it stands for, outcomes never exceed started, admitted ≤ enqueued ≤ started, and at most Workers users hold a slot |
| SimulationEngine.FullAccounting | backend/simulation/engine.go:181-212 | when Run returns the seven outcomes add up to started, which is every launched user: nobody if the cap could not be set, else every user unless the run was cancelled; no slot is held |
| SimulationEngine.OutcomeIsFinal | backend/simulation/engine.go:214-265 | a counted outcome never changes, whatever the other users do |
| SimulationEngine.NeverStuck | backend/simulation/engine.go:237-242 | until Run returns some step other than a cancellation or timeout is possible: the semaphore does not deadlock |
| SimulationEngine.ExactHolds | backend/simulation/engine.go:127-308 | the inductive invariant: tallies equal phase counts and the semaphore is within the clamped worker count |
| SimulationEngine.FirstAnswerDecides | backend/simulation/engine.go:267-306 | the first poll that does not say keep waiting decides, else the context's end does |
| SimulationEngine.JourneyEnds | backend/simulation/engine.go:214-265 | how a call ends at each stage and which errors count as what, by the kinds they match |
| SimulationEngine.BookedFields | backend/simulation/engine.go:206-323 | which counters an end moves, field by field, with the cause of an error |
| SimulationEngine.JourneyInFleet | backend/simulation/engine.go:214-306 | in any fleet a launched user can make the whole call through the interleaved machine's own enabled steps, given a free slot if the call takes one and a cancelled run if it is told so, to the same stage and outcome, moving every gauge by what that end stands for and nothing else |
| SimulationEngine.JourneyIsPlayed | backend/simulation/engine.go:214-306 | one user's whole call, event by event, passes through the phases to the stage and outcome that the call computes |
| SimulationEngine.BookedMarks | backend/simulation/engine.go:214-265 | a whole call moves every gauge by exactly what the user's end stands for in the machine |
| SimulationEngine.Workers | backend/simulation/engine.go:128-133 | the clamp: at most the users, positive when there are users, as configured in between |
| SimulationEngine.PollsWithinBudget | backend/simulation/engine.go:134-150 | a poll interval of the runner's own choosing keeps the polls within the budget, up to rounding, until the longest interval |
| SimulationEngine.Runner.constructor | backend/simulation/engine.go:127-179 | every counter starts at zero, with the clamped workers, that interval, and the defaults for timeout, quantity and transport |
| SimulationEngine.Runner.RunUser | backend/simulation/engine.go:214-265 | one call adds exactly one outcome and each stage passed, and gives its slot back |
| SimulationEngine.Runner.WaitForAdmission | backend/simulation/engine.go:267-306 | returns true exactly on admission, else counts exactly one outcome, and releases the place exactly on sold out |
| SimulationEngine.Runner.ClassifyError | backend/simulation/engine.go:314-323 | exactly one of timed out, cancelled or errors, deadline first, with the cause recorded |
| SimulationRegistry.OneLiveRun | backend/simulation/registry.go:47-113 | at most one unfinished run per event, the one byEvent names; both questions and Start's guard are exact |
| SimulationRegistry.LateForgetHarmless | backend/simulation/registry.go:134-141 | a late forget leaves every unfinished run tracked and named |
| SimulationRegistry.OverrideIsOwned | backend/simulation/engine.go:181-194 | from its own set until its own clear a run's cap override has been in place all along if and only if no run outside the registry, from the command line or another server, has written or cleared the key |
| SimulationRegistry.OverrideStepExactly | backend/simulation/engine.go:181-194 | the same for one step, over every action |
| SimulationRegistry.OutsideTakesOverride | backend/cmd/simulate/main.go:85-102 | a run of the registry that loses its override to one from the command line |
| SimulationRegistry.NoOverrideLeft | backend/simulation/engine.go:189-193 | an event without an unfinished run in the registry has an override if and only if a run outside wrote it and nobody has rewritten the key since |
| SimulationRegistry.RegistryHolds | backend/simulation/registry.go:47-141 | the inductive invariant over maps, run lives and overrides |
| SimulationRegistry.Registry.Start | backend/simulation/registry.go:47-79 | refuses exactly when the event has a live run, else tracks the new run under both maps |
| SimulationRegistry.Registry.HasActiveRun | backend/simulation/registry.go:84-95 | true exactly when the event's named run is tracked and not done |
| SimulationRegistry.Registry.HasAnyActiveRun | backend/simulation/registry.go:100-111 | the loop answers true exactly when some tracked run is not done |
| SimulationRegistry.Registry.Forget | backend/simulation/registry.go:134-141 | removes the run, and the event's name only if it still is that run's |
| Common.Add32 | backend/repository/reservations/postgresReservationRepository.go:117-120 | uint32 addition, equal to the true sum exactly when that fits |
| Common.Difference64 | backend/repository/virtualqueues/main.go:118-119 | int64 subtraction after conversion: positive exactly for a true difference in 1 .. 2^63 - 1 |

## Left out

- HTTP handlers, routing, JWT, JSON, logging, configuration loading, migrations, seeding and the frontend: no state of their own.
- Failing Redis and Postgres calls: calls that the code only logs (SADD, DEL, SET of a marker) succeed here. A transaction of the interleaved model may abort at any point, and setting a run's cap may fail.
- Global Redis flushes and table deletion by the admin and command-line paths: they would reset several machines at once. The theorems of the registry and of the markers are about runs without them.
- User and event read caches, and the event's start of sales: the quota check on the cached event is not used by the repository's reserve, which reads the row.
- The insert and the commit of a reserve are one step: a crash between them is an abort, and no other reserve of the event can run there because the row is locked.
- The bound of 128 entries on the LRU: eviction is a step that may happen to any entry at any time, in `SoldOutMarkers` and `ReservationCalls`.
- `ReservationCalls` takes each block, unblock and check as one step of one process, which is the grain of its claims. In `SoldOutMarkers` and `SoldOutRaces` a check is one step; in `SoldOutRaces` an entry or the flag may lapse at any time, the timing being the subject of `SoldOutMarkers`.
- The command line's capacity change is a step of `SoldOutRaces` only; in `ReservationCalls` a change of capacity unblocks, as the admin handler does.
- Clock differences between Go processes, Redis and Postgres: one clock. Whole seconds.
- Lua's number type: counts are exact integers here and doubles there, which differ from 2^53 on.
- ReservationService.ReservationService.ReserveEvent: GetEvent is modelled as the lookup of an existing event; its errors other than not-found are failed calls.
- SimulationEngine.Runner.RunUser: it is driven by a script of the answers one user gets; the concurrency of users is in the machine above it, and the calls it makes to the system are answers, not effects.
- SimulationEngine.Runner.constructor: intervals and timeouts are whole milliseconds; the client itself is not built.
- The cached sold-out and idempotency keys as single objects, and the effective cap's lookup: their methods do one assignment or one test each, and are specified so; the claims are about the machines that use them.
- Latency samples, percentiles, connection pool statistics and `Snapshot`, which reads the counters one by one.
- Registry lookup by id and cancellation: the run's context being cancelled is an action of the engine's machine.
- The ten-minute delay before a run is forgotten: the machine lets it happen at any time after the run is done.
- Key-name helpers and the list of active events per tick when Redis fails midway.
