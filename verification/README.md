# Verified model of the modem gateway's core

This project models the parts of the gateway that decide who may talk to a SIM card, which
modem belongs to which configuration, and what the stored messages and counters mean, and
proves what they promise.

* **APDU arbiter** (`ArbiterPolicy`, `ArbiterObject`, `ArbiterSystem`, `ArbiterInvariant`,
  `ArbiterAdmission`, `ArbiterWakeups`, `ArbiterRuns`). One queue of sessions, one-shots, transports and barriers.
  `ArbiterPolicy` says who may be granted, as predicates on positions of the queue;
  `ArbiterObject.Arbiter` is the lock-protected object with its scans, proved against that
  policy; `ArbiterSystem` adds the callers asleep on the notification channel, watchdog timers
  and a clock, one event per lock section. The notification channel is a generation number.
  Proved over all runs: exclusion and accounting, who is granted in terms of what may be held
  together, the barrier fences, bounded overtaking, the exact condition under which a wakeup is
  lost, progress, and the life of a lease and of a barrier.
* **SIM-auth gate** (`SimAuthGate`). One shared probe and its invalidation.
* **Messages** (`SmsModel`, `SmsStore`, `SmsOrder`, `SmsPaging`, `SmsBackfill`). The contact
  index against its meaning, the summary of each thread; keyset paging; the batched backfill.
* **Device identity** (`IdentityResolver`, `IdentityTheorems`). Deduplication by IMEI and the
  three matching rounds.
* **Log tail** (`LogTail`). The backward block reader against splitting the whole file.
* **Traffic** (`TrafficRollup`, `TrafficAnalysis`, `TrafficEndToEnd`). Conservation of bytes
  from minutes to days, from table rows to the chart, and from minutes to the chart.
* **Protocols of one device** (`EsimSwitch`, `UssdSession`, `UssdBackend`, `MbimRegistration`).
  Switch tokens, the USSD session and its release, and MBIM registration against any behaviour
  of the modem. `UssdBackend` runs a call step by step among callbacks and records that what it
  does is a run of `UssdSession`'s machine.

`Common` holds the option type, `Text` blank trimming.

## What turned out not to hold

Some promises of the code hold only under a condition. Each has a concrete counterexample or
an exact condition, and the code is modelled as it is.

* *Nobody misses a wakeup.* A queued transport outside AKA that ages past 500 ms changes the
  policy without a signal. `LostWakeupExactly` gives the exact condition, `NoLostWakeup` the
  positive theorem, `AgeingCanStrandTheQueue` a run in which an idle arbiter has a non-empty
  queue and everybody sleeps.
* *The contact shows the latest message.* A save with an older timestamp overwrites it, until
  the next operation on the thread repairs it (`HistoryAgreesExactly`, `LateSaveSpoils`), and
  deleting a message with a blank IMSI does not rebuild the contact (`DeleteAgreesExactly`,
  `BlankDeleteSpoils`).
* *Paging reads every message once.* A cursor with the zero timestamp falls back to the id
  (`ZeroCursorExactly`, `PagingExactly`, `ZeroTimestampRepeats`).
* *The tail shows the last lines.* Blank lines at the end count against the block reader's stop
  condition but not for its result (`TailExactly`, `BlankBlockHidesTheLog`).
* *A day holds its minutes.* Hour rows without minutes behind them still count
  (`DayConservesExactly`, `StaleHourCounts`).
* *The chart of the last day shows its minutes.* Hour rows without minutes behind them count, and
  an hour row of the current hour counts twice (`DayChartExactly`, `CurrentHourCountsTwice`).
* *A failed switch does not disturb a newer one.* Without a token the failure path reads and
  clears in two sections (`BlindFinishExactly`, `BlindFinishErasesNewSwitch`), and the cleanup
  timer tells switches apart by capture time only (`OldCleanupExactly`,
  `OldCleanupErasesNewSwitch`).
* *No new USSD request before the old session is released.* A session cancelled while its
  request is being sent is not remembered (`SendingWhileOwed`, `CancelledSendLeaks`).
* *The radio comes back after a radio cycle.* It stays off exactly when the cycle is cut short
  (`EnsureMBIMRegistration`), and registration goes on polling in that state (`RadioStaysOff`).

## Model

| member | source | states |
|---|---|---|
| ArbiterPolicy.SelectionExists | internal/apduarbiter/arbiter.go:526-571 | whenever some queued transport is a candidate, the ranking (aged traffic, then AKA, then age) has a winner |
| ArbiterPolicy.NothingHeldSomeAdmissible | internal/apduarbiter/arbiter.go:481-515 | no policy deadlock: with nothing held, a non-empty queue has a ticket that may be granted |
| ArbiterPolicy.AgedIsNotOvertaken | internal/apduarbiter/arbiter.go:526-600 | an aged, unblocked transport outside AKA is passed by a later lease only while its own QMI channel is taken, and only by a QMI transport on another channel |
| ArbiterPolicy.WaitingBarrierFences | internal/apduarbiter/arbiter.go:526-541 | nothing queued behind a waiting barrier may be granted |
| ArbiterAdmission.AdmittedExactly | internal/apduarbiter/arbiter.go:481-600 | in every exclusive state a queued ticket is admissible exactly if it deserves it, in terms of what may be held together: a session or one-shot at the head for which there is room, the first barrier when nothing is leased, a transport for which there is room, whose predecessors would find room at least on another channel or are blocked, and that no other such transport outranks |
| ArbiterAdmission.GrantedExactly | internal/apduarbiter/arbiter.go:424-478 | over whole runs a caller that looks, first or later, is granted exactly if its ticket deserves it; nobody is refused without a reason |
| ArbiterAdmission.ArrivalExactly | internal/apduarbiter/arbiter.go:481-515 | with nobody queued, a session or a transport is granted if and only if holding it as well keeps exclusion, a one-shot if and only if nothing is leased and no barrier blocks it, a barrier if and only if nothing is leased, whatever barriers are active |
| ArbiterAdmission.HeadExactly | internal/apduarbiter/arbiter.go:526-587 | a transport at the head of the queue that nobody outranks is granted, when its caller looks, if and only if holding it as well keeps exclusion |
| ArbiterAdmission.RoomIsUsed | internal/apduarbiter/arbiter.go:526-571 | if there is room for the transport at the head of the queue, that transport or one that outranks it is admissible now |
| ArbiterObject.Arbiter.IsBlockedByActiveBarrier | internal/apduarbiter/arbiter.go:617-624 | the scan finds an active barrier that blocks the class, if and only if there is one |
| ArbiterObject.Arbiter.HasActiveExclusiveTransport | internal/apduarbiter/arbiter.go:809-816 | the scan finds an exclusive transport if and only if one is held |
| ArbiterObject.Arbiter.ActiveQMITransportCount | internal/apduarbiter/arbiter.go:818-826 | the loop counts the QMI transports held |
| ArbiterObject.Arbiter.HasActiveTransportOnChannel | internal/apduarbiter/arbiter.go:828-835 | the scan finds a transport on the channel if and only if one is held |
| ArbiterObject.Arbiter.CanAcquireTransportNow | internal/apduarbiter/arbiter.go:573-587 | a transport fits beside the transports held; from a proper list of transports, exactly if the list stays proper with it added: one exclusive transport alone, or at most MaxQMITransports on distinct channels |
| ArbiterObject.Arbiter.TransportWaitGatesQueue | internal/apduarbiter/arbiter.go:589-600 | which waiting tickets end the scan |
| ArbiterObject.Arbiter.HasPendingBarrierAhead | internal/apduarbiter/arbiter.go:602-615 | the scan answers whether a barrier in front blocks the ticket's class |
| ArbiterObject.Arbiter.SelectedBarrier | internal/apduarbiter/arbiter.go:517-524 | the id of the first queued barrier, 0 if there is none |
| ArbiterObject.Arbiter.ScanTransports | internal/apduarbiter/arbiter.go:526-560 | one pass finds the first candidate, the first aged one and the first AKA one, over exactly the tickets the scan reaches |
| ArbiterObject.Arbiter.SelectedTransport | internal/apduarbiter/arbiter.go:561-571 | the loop's choice is the transport the ranking selects, 0 exactly when there is no candidate |
| ArbiterObject.Arbiter.CanAcquireLease | internal/apduarbiter/arbiter.go:481-505 | the lease test is the admission policy at the ticket's position |
| ArbiterObject.Arbiter.CanAcquireBarrier | internal/apduarbiter/arbiter.go:507-515 | the barrier test is the admission policy at the ticket's position |
| ArbiterObject.Arbiter.RemoveTicket | internal/apduarbiter/arbiter.go:786-795 | removes the ticket with the id and nothing else; tells whether it was queued |
| ArbiterObject.Arbiter.GrantTicket | internal/apduarbiter/arbiter.go:431-450 | moves an admissible ticket from the queue to its holders, counts it and signals |
| ArbiterObject.Arbiter.Enter | internal/apduarbiter/arbiter.go:424-463 | queueing, signalling and the first look: granted exactly if the policy admits the new ticket, which in an exclusive state means exactly if it deserves it |
| ArbiterObject.Arbiter.Resume | internal/apduarbiter/arbiter.go:430-476 | a later look by a woken caller: granted exactly if the policy admits its ticket, which in an exclusive state means exactly if it deserves it |
| ArbiterObject.Arbiter.Abandon | internal/apduarbiter/arbiter.go:466-474 | a caller that gives up withdraws its ticket, is counted and signals |
| ArbiterObject.Arbiter.RemoveActiveLease | internal/apduarbiter/arbiter.go:760-784 | removes the lease with the id from the list of its type only |
| ArbiterObject.Arbiter.Release | internal/apduarbiter/arbiter.go:665-684 | releases the lease if it is held, and does nothing otherwise |
| ArbiterObject.Arbiter.ReleaseExpired | internal/apduarbiter/arbiter.go:702-730 | a timer releases by force only at or after the lease's present deadline |
| ArbiterObject.Arbiter.Touch | internal/apduarbiter/arbiter.go:641-663 | extends the deadline of a held lease by a full hold; tells whether it is held |
| ArbiterObject.Arbiter.ReleaseBarrier | internal/apduarbiter/arbiter.go:686-700 | takes one active barrier with the id out of the list, and nothing else, and signals; changes nothing if there is none |
| ArbiterInvariant.AdmitKeepsExclusion | internal/apduarbiter/arbiter.go:430-461 | a grant that the policy admits keeps the exclusion of resources |
| ArbiterInvariant.RetryKeeps | internal/apduarbiter/arbiter.go:430-476 | a later look of a waiting caller keeps the whole invariant |
| ArbiterInvariant.TouchKeepsInv | internal/apduarbiter/arbiter.go:641-663 | a touch keeps the whole invariant although it does not signal |
| ArbiterInvariant.ReleaseKeepsInv | internal/apduarbiter/arbiter.go:665-684 | a release keeps the whole invariant |
| ArbiterInvariant.StepKeepsInv | internal/apduarbiter/arbiter.go:197-730 | every lock section keeps: ids unique, lists typed, exclusion, accounting, and every sleeper's last look said no |
| ArbiterInvariant.RunInv | internal/apduarbiter/arbiter.go:176-730 | the invariant holds in every reachable state |
| ArbiterRuns.RunExclusion | internal/apduarbiter/arbiter.go:481-515 | in every reachable state at most one kind of lease is held, within MaxSessions and MaxQMITransports, on distinct channels, with no held class blocked by an active barrier, and waitRequests = acquires + waitTimeouts + queue length |
| ArbiterRuns.AheadWasAhead | internal/apduarbiter/arbiter.go:424-450 | nobody gets in front of a queued ticket by any event |
| ArbiterRuns.QueuedBarrierFence | internal/apduarbiter/arbiter.go:485-541 | over whole runs, while a barrier waits no lease is granted to a ticket that was not already in front of it |
| ArbiterRuns.ActiveBarrierFence | internal/apduarbiter/arbiter.go:237-249 | over whole runs, from a barrier's grant to its release no lease of a blocked class is granted |
| ArbiterRuns.StepOvertaking | internal/apduarbiter/arbiter.go:526-600 | each lease granted to another caller comes from in front of an entitled ticket, or is a QMI transport on another channel while its own is taken |
| ArbiterRuns.BoundedOvertaking | internal/apduarbiter/arbiter.go:526-600 | over whole runs, position in the queue plus leases granted to others never exceeds the position at the start |
| ArbiterRuns.LateReleaseIsHarmless | internal/apduarbiter/arbiter.go:665-684 | releasing a lease that is not held any more changes nothing |
| ArbiterRuns.ReleaseTakesItsOwnLease | internal/apduarbiter/arbiter.go:760-784 | a release removes the lease with its id and leaves the count of every other id alone |
| ArbiterRuns.ReleaseTakesItsOwnBarrier | internal/apduarbiter/arbiter.go:686-700 | releasing a barrier that is held retires its id and leaves every other barrier held; afterwards exactly the classes are blocked that one of the others blocks |
| ArbiterRuns.RetiredForGood | internal/apduarbiter/arbiter.go:389-396 | over whole runs, an id that is neither queued nor held never comes back, so a late or repeated release never takes another lease |
| ArbiterRuns.SafeAlongRun | internal/apduarbiter/arbiter.go:641-730 | after a grant or a touch the lease's deadline stays at least a full hold later, whatever happens |
| ArbiterRuns.ForcedReleaseIsLate | internal/apduarbiter/arbiter.go:702-730 | a forced release comes a full MaxLeaseHold after the grant and after every touch, whichever timer fires |
| ArbiterRuns.TimerExactly | internal/apduarbiter/arbiter.go:702-730 | over whole runs, a timer that fires for a held lease releases it, counts that, and leaves all else in place, exactly if a full MaxLeaseHold has passed since the lease was granted or last touched; else nothing happens |
| ArbiterRuns.IdleExactly | internal/apduarbiter/arbiter.go:284-302 | a caller waiting for idleness is let go exactly when no ticket is queued, no lease held and no barrier active |
| ArbiterWakeups.LostWakeupExactly | internal/apduarbiter/arbiter.go:463-476 | in every reachable state a sleeping caller's ticket is admissible exactly when it aged in its sleep, nothing aged is in front of it, and another candidate was preferred when it last looked |
| ArbiterWakeups.NoLostWakeup | internal/apduarbiter/arbiter.go:837-840 | if no queued ticket aged since its sleeper's last look, no sleeper on the open channel has an admissible ticket |
| ArbiterWakeups.OnlyAgeingTrafficLosesWakeups | internal/apduarbiter/arbiter.go:284-302 | barriers, sessions, one-shots, AKA transports and callers waiting for idleness never lose a wakeup |
| ArbiterWakeups.SomebodyCanProceed | internal/apduarbiter/arbiter.go:430-478 | with nothing held and a non-empty queue, under the same condition, some waiting caller is awake and will be granted |
| ArbiterWakeups.AgeingCanStrandTheQueue | internal/apduarbiter/arbiter.go:526-571 | a concrete run in which nothing is held, two transports are queued, one is admissible, and both callers sleep on the open channel |
| SimAuthGate.SimAuthReady.Invalidate | internal/apduarbiter/simauth_ready.go:34-41 | a new generation, not ready; a running probe goes on |
| SimAuthGate.SimAuthReady.LookIn | internal/apduarbiter/simauth_ready.go:66-90 | the first section of a waiter: ready, parked on the probe's channel, or prober |
| SimAuthGate.SimAuthReady.Finish | internal/apduarbiter/simauth_ready.go:94-105 | the second section of the prober: only an outcome of the present generation counts, and the channel is closed |
| SimAuthGate.StepKeepsInv | internal/apduarbiter/simauth_ready.go:34-114 | every section keeps: one prober at most, parked callers on a closed channel or the prober's |
| SimAuthGate.RunInv | internal/apduarbiter/simauth_ready.go:25-115 | the invariant holds in every reachable state |
| SimAuthGate.OneProbeAtATime | internal/apduarbiter/simauth_ready.go:71-89 | over all runs at most one caller probes, and none starts a probe while one runs |
| SimAuthGate.ProbeEndWakesEverybody | internal/apduarbiter/simauth_ready.go:100-105 | whoever is parked when a probe ends can run again |
| SimAuthGate.ParkedForAReason | internal/apduarbiter/simauth_ready.go:71-83 | a parked caller can run, or the prober of its channel is at work |
| SimAuthGate.ReadyIsFresh | internal/apduarbiter/simauth_ready.go:95-99 | the gate is ready only after a successful probe that began after the latest invalidation |
| SimAuthGate.ReadyExactly | internal/apduarbiter/simauth_ready.go:66-105 | over whole runs the gate is ready if and only if a probe succeeded that began after the latest invalidation |
| SimAuthGate.NilMeansFreshProbe | internal/apduarbiter/simauth_ready.go:67-113 | a nil return implies a successful probe that began after the latest invalidation |
| SmsModel.LatestIsGreatest | internal/db/db.go:1146-1158 | the reference latest message belongs to the thread and no message of the thread comes after it by (timestamp, id) |
| SmsModel.ConcatLatest | internal/db/db.go:1146-1158 | the latest message of two tables together is the later of the two |
| SmsModel.ConcatUnread | internal/db/db.go:1160-1165 | unread messages of two tables together add up |
| SmsModel.UnreadCounts | internal/db/db.go:1160-1165 | the unread count is the number of messages of the thread that came in (type 1) and have status 0 |
| SmsModel.SwapIrrelevant | internal/db/db.go:1147-1165 | the summary of a thread does not depend on the order of the table |
| SmsStore.Store.UpsertContactFromSMS | internal/db/db.go:854-889 | the contact of the message's key takes its last fields, and the unread count grows for incoming unread messages |
| SmsStore.Store.SaveSMS | internal/db/db.go:720-753 | one more row, trimmed and truncated to the second, filed under the trimmed recipient if it was sent (type 2) and has one and under the trimmed sender otherwise; unless that is empty, the contact of IMSI and peer shows this message, counted if it came in unread; no other contact changes |
| SmsStore.SavedIsFiled | internal/db/db.go:720-762 | the same of a save in a history, field by field, the peer spelled out |
| SmsStore.Store.RebuildSMSContact | internal/db/db.go:1139-1191 | the contact becomes the summary of its thread, or disappears with it; blank keys are left alone |
| SmsStore.Store.DeleteSMSByID | internal/db/db.go:1206-1234 | the row disappears and the contact of its trimmed key is rebuilt; not-found changes nothing |
| SmsStore.Store.DeleteSMSByIMSIAndPeer | internal/db/db.go:1236-1259 | all rows of the thread and its contact disappear; otherwise nothing changes |
| SmsStore.SaveAgreesExactly | internal/db/db.go:870-888 | whatever last message the contact showed before, after a save it agrees with the thread exactly when the message is not older than the thread's latest |
| SmsStore.DeleteRepairs | internal/db/db.go:1224-1231 | deleting a message repairs its contact, whatever state it was in, if the key is not blank |
| SmsStore.SummaryAfterDelete | internal/db/db.go:1226-1231 | without a rebuild a deletion keeps the summary exactly when the message was neither the latest nor counted as unread |
| SmsStore.DeleteAgreesExactly | internal/db/db.go:1139-1144 | after a deletion the contact agrees exactly when the IMSI is not blank or the deletion did not matter to the summary |
| SmsStore.HistoryWellFormed | internal/db/db.go:720-753 | under any history ids are distinct and keys are trimmed |
| SmsStore.HistoryPeers | internal/db/db.go:755-763 | under any history every message is filed under its recipient if it was sent to one, and under its sender otherwise |
| SmsStore.HistoryCounts | internal/db/db.go:854-889 | under any history a contact exists if and only if its thread is non-empty, and counts the incoming unread messages |
| SmsStore.UntouchedAgreement | internal/db/db.go:870-888 | operations on other threads do not change whether a contact agrees |
| SmsStore.TouchedAgreement | internal/db/db.go:854-889 | after an operation on the thread its contact agrees exactly when the operation was not a late save |
| SmsStore.HistoryAgreesExactly | internal/db/db.go:854-889 | under any history a contact is the summary of its thread, last fields included, exactly when the last operation on the thread was not a save older than its latest message |
| SmsStore.HistoryAgrees | internal/db/db.go:854-889 | so if the saves of a thread arrive in order of time its contact always agrees |
| SmsStore.HistoryShowsNewest | internal/db/db.go:854-889 | under any history whose last operation on a thread was no late save, there is a contact exactly if the thread has a message, and it shows ICCID, id, time, content and type of the newest one, and how many came in and are unread |
| SmsStore.DeletionMeans | internal/db/db.go:1206-1259 | a deletion by id removes that message and no other; a deletion of a thread removes its messages and no other, and nothing without IMSI or peer; it touches no other contact |
| SmsStore.LateSaveSpoils | internal/db/db.go:870-888 | a concrete history of a newer and an older message whose contact shows the older one |
| SmsStore.BlankDeleteSpoils | internal/db/db.go:1139-1144 | a concrete history in which the contact of an emptied thread without IMSI stays |
| SmsOrder.SortSorted | internal/db/db.go:913 | ordering by (timestamp, id) yields a strictly ascending list |
| SmsOrder.SortKeep | internal/db/db.go:913-916 | filtering before or after ordering gives the same list |
| SmsOrder.SortSummary | internal/db/db.go:913 | ordering the table does not change any summary |
| SmsPaging.NewestIsThread | internal/db/sms_query.go:100-102 | the reference list holds exactly the messages of the thread, newest first |
| SmsPaging.ThreadMeans | internal/db/sms_query.go:80-128 | a thread read by subscriber or by card holds exactly the messages with its peer and that IMSI or ICCID |
| SmsPaging.TimeCursor | internal/db/sms_query.go:94-95 | a cursor with a timestamp only continues at the first message that is older |
| SmsPaging.PageAfterRow | internal/db/sms_query.go:91-102 | the cursor taken from a row with a proper timestamp continues right behind that row |
| SmsPaging.ZeroCursorExactly | internal/db/sms_query.go:117-123 | the cursor of a zero timestamp continues correctly exactly when no dated message has a smaller id |
| SmsPaging.PagingExactly | internal/db/sms_query.go:105-128 | paging is complete for every page size exactly when undated messages are older by id as well |
| SmsPaging.PagingReadsEverythingOnce | internal/db/sms_query.go:80-103 | without zero timestamps, following the last row reads every message exactly once, in descending order, and ends |
| SmsPaging.PagesRead | internal/db/sms_query.go:84-89 | n pages read n times the limit, 50 if none is given and 200 at most, until the thread is read |
| SmsPaging.ZeroTimestampRepeats | internal/db/sms_query.go:117-123 | a concrete thread on which pages alternate for ever |
| SmsBackfill.BackfillIsSummary | internal/db/db.go:891-950 | for every thread with a peer the backfilled contact is the summary of the thread in the repaired table |
| SmsBackfill.BackfillEqualsRebuild | internal/db/db.go:1139-1191 | after a backfill, rebuilding any thread changes nothing |
| SmsBackfill.RepairIsRefiling | internal/db/db.go:925-937 | a row with a peer stays as it is; one without is filed under the recipient if it was sent to one, else under the sender if there is one, and nothing else of it changes |
| SmsBackfill.BackfillShowsNewest | internal/db/db.go:891-950 | after a backfill the contact of every thread with a peer shows the newest message and the number of unread ones, and exists exactly if the thread has a message |
| SmsBackfill.OnceIsEnough | internal/db/db.go:952-972 | if every message can be filed, no backfill is needed after a backfill |
| SmsBackfill.BatchContinues | internal/db/db.go:911-922 | each batch continues behind the previous one although the rows before the cursor were rewritten |
| SmsBackfill.BackfillOne | internal/db/db.go:925-940 | one message: its blank peer is derived again and written back, and its contact is upserted |
| SmsBackfill.BackfillBatch | internal/db/db.go:924-944 | one transaction advances table and index over the batch |
| SmsBackfill.BackfillInBatches | internal/db/db.go:908-950 | for every batch size the loop ends, visits each row exactly once in order, and leaves the fold over all messages |
| SmsBackfill.BackfillSMSPeerAndContacts | internal/db/db.go:891-906 | nothing happens when no backfill is needed; otherwise the whole table is repaired, each row filed as its own fields say, and the index rebuilt |
| IdentityResolver.Slots | internal/device/identity_resolver.go:116-135 | the positions that open an entry: without IMEI, or the first of their IMEI, in order and complete |
| IdentityResolver.DedupeCompositions | internal/device/identity_resolver.go:116-135 | one entry per IMEI in order of first occurrence, holding the highest-ranked composition, the earliest among equals |
| IdentityResolver.TakeLegacyConfig | internal/device/identity_resolver.go:100-111 | takes the first free legacy configuration that matches the path, and marks its id |
| IdentityResolver.IndexConfigs | internal/device/identity_resolver.go:35-45 | the map answers every IMEI with the first configuration that carries it; the rest are the legacy ones, in order |
| IdentityResolver.MatchByIMEI | internal/device/identity_resolver.go:52-64 | round one: pairs with owners, strays and modems without IMEI, in order |
| IdentityResolver.MatchByPath | internal/device/identity_resolver.go:66-87 | rounds two and three: greedy matching by path, in order |
| IdentityResolver.ResolveDeviceIdentities | internal/device/identity_resolver.go:29-96 | the outcome is that of the three rounds on the deduplicated list |
| IdentityTheorems.DedupedKeys | internal/device/identity_resolver.go:113-135 | no IMEI occurs twice, none is lost, and modems without IMEI are all kept |
| IdentityTheorems.DedupedIsUnique | internal/device/identity_resolver.go:113-135 | the outcome of a deduplication is determined |
| IdentityTheorems.PreferredIsKept | internal/device/identity_resolver.go:137-152 | of the compositions of one modem none is kept that another precedes in the order QMI, MBIM, NCM, ECM, RNDIS |
| IdentityTheorems.IdentityExactly | internal/config/imei.go:8-20 | the identity of an IMEI is its first 14 digits, whatever stands between them; fewer digits identify nothing |
| IdentityTheorems.EveryModemOnce | internal/device/identity_resolver.go:18-24 | every modem is in exactly one of matched, unmatched and degraded |
| IdentityTheorems.OwnerIsFirst | internal/device/identity_resolver.go:37-41 | the owner of an IMEI is the first configuration that carries it, and there is one if any carries it |
| IdentityTheorems.EveryPairIsJustified | internal/device/identity_resolver.go:26-28 | a configuration with an IMEI is paired with that IMEI only; one without is paired by path with an unowned modem, whose IMEI is written back (what a path match is, is the subject of MatchedByPathMeans) |
| IdentityTheorems.OwnersAreHonoured | internal/device/identity_resolver.go:51-64 | every modem whose IMEI is owned is paired with the owner |
| IdentityTheorems.PairsHaveDistinctIds | internal/device/identity_resolver.go:47-48 | with distinct ids no configuration is matched twice |
| IdentityTheorems.EveryConfigOnce | internal/device/identity_resolver.go:89-93 | with distinct ids every configuration is either matched once or offline once |
| IdentityTheorems.NothingLeftToMatch | internal/device/identity_resolver.go:154-170 | no left-over modem matches the path of an offline configuration without IMEI |
| IdentityTheorems.MatchedByPathMeans | internal/device/identity_resolver.go:154-170 | a configuration without IMEI that is matched is on the same USB port as its modem if both ports are known, and otherwise shares a control device or an interface with it |
| IdentityTheorems.LeftOversShareNoPath | internal/device/identity_resolver.go:154-170 | a left-over modem and an offline configuration without IMEI share no known USB port and, where one is unknown, neither control device nor interface |
| IdentityTheorems.FirstMatchWins | internal/device/identity_resolver.go:100-111 | a match by path takes the first configuration without IMEI that matches and was not taken before |
| IdentityTheorems.IMEIGoesFirst | internal/device/identity_resolver.go:66-87 | what a modem without IMEI was given, no left-over modem with an IMEI matches |
| IdentityTheorems.TrimKeepsIdentity | internal/config/imei.go:5-20 | trimming an IMEI keeps the identity it stands for |
| IdentityTheorems.OwnerAfterAdoption | internal/device/pool.go:2015-2017 | once the found IMEIs are written back, the owner of each matched IMEI is the configuration it was matched with |
| IdentityTheorems.IdentityIsPermanent | internal/device/identity_resolver.go:26-28 | from then on the modem is paired with that configuration by IMEI, whatever paths it shows up on |
| LogTail.ReadChunks | internal/api/server.go:659-683 | the chunks joined are the file from the block-aligned offset at which the loop stops |
| LogTail.JoinChunks | internal/api/server.go:685-688 | chunks collected backwards are joined in file order |
| LogTail.ReadLastLines | internal/api/server.go:636-697 | the result is the tail of the suffix read: a piece of the file that begins a line or at the read offset, as long as asked for or from that offset on, with only white space behind it, cut at its newlines; with a visible last line and a cap that does not bind it is the tail of the whole file |
| LogTail.StopFrom | internal/api/server.go:665-673 | reading stops at the beginning, at the byte cap, or with more newlines than lines asked for |
| LogTail.StopsExactly | internal/api/server.go:665-683 | reading stops at the first block boundary from the end that is the beginning, or has the byte cap or more newlines than lines asked for behind it; no block more is read |
| LogTail.SplitIsText | internal/api/server.go:690 | the entries joined with newlines are the text, and no entry contains a newline |
| LogTail.TailIsEnd | internal/api/server.go:690-697 | the lines shown, joined with newlines, are the end of the text up to white space; there are none exactly if the text is blank |
| LogTail.SplitConcat | internal/api/server.go:690 | a split at a block boundary cuts one line only |
| LogTail.TailExactly | internal/api/server.go:690-697 | a suffix shows the same lines as the file exactly when it shows more than asked for, or as many and begins a line, or the file is blank |
| LogTail.BlocksEqualWhole | internal/api/server.go:665-697 | the block reader agrees with the simple one on every file with a visible last line, for every block boundary, unless the cap binds |
| LogTail.BlankBlockHidesTheLog | internal/api/server.go:665-697 | for every log, one block of newlines at its end makes the result empty although there are lines to show |
| TrafficRollup.TrafficDb.UpsertTrafficMinute | internal/db/traffic_rollup.go:84-112 | the points are added to the minute table one after the other; its index stays unique |
| TrafficRollup.TrafficDb.RollupToHour | internal/db/traffic_rollup.go:114-116 | the hour table is rolled up from the minutes of the hour; its index stays unique |
| TrafficRollup.TrafficDb.RollupToDay | internal/db/traffic_rollup.go:118-120 | the day table is rolled up from the hours of the day; its index stays unique |
| TrafficRollup.AddAllAt | internal/db/traffic_rollup.go:105-111 | after an upsert every minute holds what it held plus the total of its points |
| TrafficRollup.OrderIrrelevant | internal/db/traffic_rollup.go:105-111 | the order of the points does not matter |
| TrafficRollup.BatchingIrrelevant | internal/db/traffic_rollup.go:84-112 | how points are batched into upserts does not matter |
| TrafficRollup.RollupAt | internal/db/traffic_rollup.go:153-171 | a roll-up sets the row of the span's start to the sum for every group in the span, and leaves every other row alone |
| TrafficRollup.RollupSum | internal/db/traffic_rollup.go:153-171 | what a roll-up does to the sum over any span of the target |
| TrafficRollup.RollupTwice | internal/db/traffic_rollup.go:165-167 | rolling up again with unchanged data changes nothing |
| TrafficRollup.DayHolds | internal/db/traffic_rollup.go:114-120 | after 24 hours and the day were rolled up, the day holds the minutes' sum plus the stale hours' bytes |
| TrafficRollup.DayConserves | internal/db/traffic_rollup.go:114-120 | with no hour row of the group for the day, the day holds the sum of its minutes |
| TrafficRollup.DayConservesExactly | internal/db/traffic_rollup.go:153-171 | a day holds the sum of its minutes exactly when every hour row without minutes behind it is empty |
| TrafficRollup.StaleHourCounts | internal/db/traffic_rollup.go:153-171 | a concrete hour whose minutes are gone and that still counts |
| TrafficAnalysis.Filling.LayOut | internal/db/traffic.go:58-72 | the periods from the start of the window to now, in order, each once |
| TrafficAnalysis.Filling.ApplyRow | internal/db/traffic.go:85-107 | one more row is shown in its bucket, its direction and its device's series |
| TrafficAnalysis.Spread | internal/db/traffic.go:127-134 | a device's points spread over all periods, zero elsewhere |
| TrafficAnalysis.Draw | internal/db/traffic.go:116-142 | the chart assembled from the maps shows exactly the rows applied |
| TrafficAnalysis.GetTrafficAnalysisWithChart | internal/db/traffic.go:43-143 | an unknown range is an error; otherwise the chart shows exactly the fetched rows, and its grand total is what the rolled-up table holds for the window plus the finer table for the current period |
| TrafficAnalysis.RangeIsGrid | internal/db/traffic.go:154-202 | the window starts on a period boundary, and the current period lies in it |
| TrafficAnalysis.WindowsExactly | internal/db/traffic.go:154-202 | a day window starts with the hour that was 24 hours ago, a week or month window with the local day that was 7 or 30 days ago; the current period is the hour or local day of now |
| TrafficAnalysis.FetchMembers | internal/db/traffic.go:219-246 | exactly the interface rows of the window with a matching tag are fetched |
| TrafficAnalysis.TagMatchesExactly | internal/db/traffic.go:269-299 | asking for a device selects exactly the tags of that device, in whatever case |
| TrafficAnalysis.OneDeviceOnly | internal/db/traffic.go:43-143 | end to end, the chart of one device shows that device only |
| TrafficAnalysis.OneRowChart | internal/db/traffic.go:85-107 | a single row shows in its own period only, as received or sent as its direction says, and in the line of its own device |
| TrafficAnalysis.EveryRowOnce | internal/db/traffic.go:85-100 | every fetched row is in exactly one period |
| TrafficAnalysis.LinesAddUp | internal/db/traffic.go:88-107 | in every period the devices' series add up to the bucket's total |
| TrafficAnalysis.GrandTotal | internal/db/traffic.go:109-119 | the buckets' totals add up to the bytes of all rows |
| TrafficAnalysis.FetchedIsWindowed | internal/db/traffic.go:219-267 | everything fetched lies in the window |
| TrafficAnalysis.RegroupKeepsBytes | internal/db/traffic.go:248-266 | grouping the current period keeps its bytes |
| TrafficAnalysis.ChartTotal | internal/db/traffic.go:74-114 | end to end, the chart's total is the rolled-up window plus the current period |
| TrafficEndToEnd.ByGroup | internal/db/traffic_rollup.go:157-163 | a sum over rows is the sum of its parts by group |
| TrafficEndToEnd.OneGroup | internal/db/traffic_rollup.go:114-116 | for one group, 24 rolled-up hours and the current minutes hold the minutes of the window and the left-over hour rows |
| TrafficEndToEnd.RowsAddUp | internal/db/traffic.go:219-267 | the same for all rows of a device that the chart fetches |
| TrafficEndToEnd.DayChartTotal | internal/db/traffic.go:43-143 | with the 24 past hours rolled up, the chart's grand total is the minutes of the window plus the left-over hour rows |
| TrafficEndToEnd.DayChartExactly | internal/db/traffic.go:43-143 | the chart of the last day totals exactly the minutes of its window if and only if the hour table had no bytes in the window without minutes behind them, and none for the current hour |
| TrafficEndToEnd.CurrentHourCountsTwice | internal/db/traffic.go:74-81 | a concrete current hour that is already rolled up and falsifies the total |
| EsimSwitch.StepKeepsInv | internal/device/pool_esim_switch.go:96-240 | every section keeps: equal domains of the three maps, matching tokens, issued in order, never shared |
| EsimSwitch.RunInv | internal/device/pool_esim_switch.go:96-240 | the invariant holds in every reachable state, and tokens only grow |
| EsimSwitch.OtherDevicesUntouched | internal/device/pool_esim_switch.go:146-240 | no section touches the entries of another device |
| EsimSwitch.StaleForever | internal/device/pool_esim_switch.go:107-113 | over whole runs a token once lost is never held again |
| EsimSwitch.OldSwitchCannotInterfere | internal/device/pool_esim_switch.go:146-240 | whatever happens in between, work with an old switch's token leaves the whole state as it is |
| EsimSwitch.CurrentSwitchWasBegun | internal/device/pool_esim_switch.go:96-114 | over whole runs the context in flight is that of the Begin that issued its token |
| EsimSwitch.PhaseIsLastMarked | internal/device/pool_esim_switch.go:98-185 | over whole runs the phase of the switch in flight, and its time, are those last set: by a mark with its token or none, or by its beginning |
| EsimSwitch.GenerationIsLastSet | internal/device/pool_esim_switch.go:98-204 | over whole runs the identity generation of the switch in flight is the one last set in the same way, 0 from its beginning |
| EsimSwitch.OldCleanupExactly | internal/device/pool_esim_switch.go:116-129 | over whole runs an older switch's cleanup spares the switch in flight exactly when their capture times differ |
| EsimSwitch.OldCleanupErasesNewSwitch | internal/device/pool_esim_switch.go:116-129 | a concrete run of two switches captured at the same time, the second of which the first's cleanup erases |
| EsimSwitch.BlindFinishExactly | internal/device/pool_esim_switch.go:956-967 | a failure without token spares the switch in flight exactly when a different one was seen |
| EsimSwitch.BlindFinishErasesNewSwitch | internal/device/pool_esim_switch.go:956-967 | a concrete switch that begins between the two sections and is erased |
| EsimSwitch.Pool.BeginESIMSwitch | internal/device/pool_esim_switch.go:98-114 | a new token, context and mark for the device, nothing else |
| EsimSwitch.Pool.MarkESIMSwitchPhaseIfToken | internal/device/pool_esim_switch.go:146-185 | changes the phase of the context only, for the current token or none; tells whether it did |
| EsimSwitch.Pool.UpdateESIMSwitchIdentityGeneration | internal/device/pool_esim_switch.go:187-204 | changes the generation of the context only, for the current token or none |
| EsimSwitch.Pool.IsLatestSwitchToken | internal/device/pool_esim_switch.go:206-211 | tells whether a non-zero token is the device's current one |
| EsimSwitch.Pool.ClearESIMSwitchIfToken | internal/device/pool_esim_switch.go:228-240 | forgets the device for the current token only |
| EsimSwitch.Pool.CleanupAfterTimeout | internal/device/pool_esim_switch.go:116-129 | forgets the device for an equal capture time only |
| EsimSwitch.Pool.FinishESIMSwitchForFailure | internal/device/pool_esim_switch.go:955-990 | hands out the snapshot and forgets the device, for the current token; without token in two sections |
| UssdSession.StepKeepsInv | internal/backend/qmi_backend_ussd.go:59-64 | every drain, delivery and answer keeps: drained channels hold fresh entries only, and an unreleased session blocks |
| UssdSession.RunInv | internal/backend/qmi_backend_ussd.go:38-132 | the invariant holds in every reachable state |
| UssdSession.TakenIsFresh | internal/backend/qmi_backend_ussd.go:113-120 | over all runs a result or error taken was delivered after the call began, and after it ended the session before it, if it had to |
| UssdSession.FirstResultStays | internal/backend/qmi_backend_ussd.go:382-387 | over runs the first result to arrive stays in its channel until it is taken; later ones are dropped |
| UssdSession.OwedUntilReleased | internal/backend/qmi_backend_ussd.go:62-64 | a session that timed out stays owed, and nothing is sent, until a release is consumed |
| UssdSession.NothingSentBeforeRelease | internal/backend/qmi_backend_ussd.go:59-64 | over whole runs, after a timeout or a cancelled wait nothing is sent before a release was consumed that was delivered since that session began |
| UssdSession.SendingWhileOwed | internal/backend/qmi_backend_ussd.go:62-84 | over all runs, with a session owed a release, the next call sends exactly when that session was cancelled while being sent |
| UssdSession.CancelledSendLeaks | internal/backend/qmi_backend_ussd.go:75-84 | a concrete run that sends twice without any release |
| UssdSession.Settled | internal/backend/qmi_backend_ussd.go:340-380 | the drains end with empty channels, and a release found lifts the block |
| UssdBackend.QMIBackend.Callbacks | internal/backend/qmi_backend_ussd.go:382-397 | the callbacks that come between two channel operations deliver into the channels as the machine does |
| UssdBackend.QMIBackend.LookAtRelease | internal/backend/qmi_backend_ussd.go:370-380 | one look at the release channel takes an entry or ends the drain, and the block is lifted if any was taken |
| UssdBackend.QMIBackend.DrainUSSDReleases | internal/backend/qmi_backend_ussd.go:370-380 | with callbacks in between, the loop ends, and tells whether a release was found; one that was there is |
| UssdBackend.QMIBackend.ResetUSSDChannels | internal/backend/qmi_backend_ussd.go:340-348 | the whole drain is a run of the machine; the block stays exactly when no release was found |
| UssdBackend.QMIBackend.Select | internal/backend/qmi_backend_ussd.go:113-131 | the select takes a case that is ready, or the end of the context, as the machine does |
| UssdBackend.QMIBackend.WaitUSSDResult | internal/backend/qmi_backend_ussd.go:113-132 | whatever the channels held at the start, the answer is that of the step that ended the wait, a result is no older than the call, and the block is set exactly when the context ended |
| UssdBackend.QMIBackend.Send | internal/backend/qmi_backend_ussd.go:72-110 | the request goes out once, or twice if the first way is unknown to the modem, and the block follows from how it ended |
| UssdBackend.QMIBackend.ExecuteUSSD | internal/backend/qmi_backend_ussd.go:38-111 | a call is a run of the machine whatever callbacks come between its steps; it is refused exactly when the block is set and no release is found while draining, a result is no older than the call, and the block it leaves comes exactly from a refusal, a deadline or a context that ended in the wait, and shows in the answer |
| MbimRegistration.RepeatsNeedACycle | internal/device/mbim_registration.go:82-115 | between two submissions, and between two attaches, lies a radio cycle |
| MbimRegistration.ObeyingIsBounded | internal/device/mbim_registration.go:61-144 | at most MaxAttempts polls and SIM checks, one radio cycle, and one submission and attach more than cycles |
| MbimRegistration.AtMostTwo | internal/device/mbim_registration.go:82-115 | at most two submissions and two attaches, two only with a radio cycle |
| MbimRegistration.LogAsConfigured | internal/device/mbim_registration.go:41-177 | whatever is submitted is the configured network if the selection is manual and names one, and automatic selection otherwise; at most 45 polls, and no radio cycle before 30, unless the options say otherwise |
| MbimRegistration.PollingGoesOn | internal/device/mbim_registration.go:82-143 | a poll that is followed by another was neither an error nor a denial nor registered and attached |
| MbimRegistration.WaitMBIMSIMReady | internal/device/mbim_registration.go:146-161 | at most MaxAttempts checks; success exactly when the SIM was seen |
| MbimRegistration.InitiateMBIMRegistration | internal/device/mbim_registration.go:163-177 | submits the configured network, or automatic selection |
| MbimRegistration.RadioCycleMBIMForRegistration | internal/device/mbim_registration.go:179-197 | one radio cycle; the radio is off afterwards exactly when it was cut short |
| MbimRegistration.OffMeansCutShort | internal/device/mbim_registration.go:179-197 | the radio is off at the end exactly when the log shows a cycle cut short |
| MbimRegistration.Search | internal/device/mbim_registration.go:107-125 | searching submits once, and cycles the radio once after enough attempts unless a scan is active |
| MbimRegistration.Attempt | internal/device/mbim_registration.go:85-142 | one attempt keeps the loop's state or ends the call as its poll says |
| MbimRegistration.PollUntilRegistered | internal/device/mbim_registration.go:82-143 | the attempt loop ends within MaxAttempts, each way justified by the last poll |
| MbimRegistration.EnsureMBIMRegistration | internal/device/mbim_registration.go:61-144 | against any modem the log obeys the protocol (what may be sent when, and what must be done before each pause); an error is returned only on a failing answer, success exactly on a poll that shows registered and attached, denial exactly on state 3, and the radio stays off exactly when the cycle was cut short |
| MbimRegistration.RadioStaysOff | internal/device/mbim_registration.go:113-124 | a concrete modem and log in which the cycle is cut short, the radio is off and polling goes on |

## Left out

- ArbiterObject.Arbiter.Touch: leases are values in the holder lists, so that updating one through a shared pointer is modelled as replacing it in its list.
- ArbiterObject.Arbiter.Enter: the clock is read once per lock section; the source reads it several times within one.
- IdentityTheorems.IdentityIsPermanent: writing the found IMEIs into the configuration list is modelled as a function; the source does so one worker at a time.
- SmsStore.HistoryAgrees: does not cover thread deletion by ICCID, which keys contacts on the last message's ICCID.
- UssdBackend.QMIBackend.ExecuteUSSD: which callbacks come before which channel operation, how sending ends and which ready case the select prefers are parameters; lifting the block and the last look at the release channel are one step.
- EsimSwitch.Pool.FinishESIMSwitchForFailure: without a token its two sections follow each other in the method; what may happen in between is the subject of BlindFinishExactly.
- EsimSwitch.Pool.BeginESIMSwitch: starting the delayed cleanup is not part of the method; the cleanup is a section of its own that may come at any time.
- Normalisation of owners, modes, classes and scopes, statistics and snapshots of the arbiter: one-branch facts.
- Unconditional liveness of the arbiter and any bound for AKA transports: ageing does not signal, and aged traffic outranks AKA.
- Identifiers, tokens, generations and byte counts are unbounded; 64-bit overflow is not modelled.
- Blank trimming and lower case cover ASCII; Unicode white space and case folding are not modelled.
- The database: queries and upserts are functions on lists of rows keyed by their unique index, and transactions are atomic. Connection errors, creation and update times, and the local phone number of a message are not modelled.
- Time zones with daylight saving: the traffic charts use a fixed offset.
- The formatted labels of the traffic chart, and the alphabetical order of its device list.
- The weekly and monthly roll-ups, which use the same statement, and the clean-up of old rows.
- Read errors and files that change while their tail is read.
- The USSD preparation of voice domains, and the decoding of answers.
- Restoring radio and data after an eSIM switch, and the capture of the state before it.
- The worker around MBIM registration: its timeout is the failing sleep of the model.
- HTTP, SIP, RTP, AT, QMI and MBIM input and output, voice coding, logging.
