# PerfectGift: protocols and promises

A Dafny model of the parts of PerfectGift whose behaviour is easiest to get wrong, with proofs of what they promise.
Check everything with `dafny verify dfyconfig.toml`.

Where the program changes objects in place the model has classes with the same fields, whose methods are proved against
functions on values; where several parties act at once it has a step system (`Enabled`, `Apply`, `Run`) over the same
functions, in which databases, networks, models and push providers answer as they please. Clocks, ids, hashes and
outcomes of calls into other systems are parameters.

| file | what it models |
|---|---|
| `Outbox`, `OutboxService` | notification events, dedupe keys, the retry schedule; the store's statements, the consumer and the dispatcher |
| `OutboxProtocol` | the bus, any number of consumers and dispatchers, crashes between statements: nothing lost, nothing doubled |
| `OutboxLeases`, `OutboxSweeps` | what the lease gives: claims a lease apart in every run; one worker per row and final rows when workers keep to it; and that enough sweeps reach every row |
| `OutboxAlone` | the dispatcher's steps against its sequential pass |
| `OutboxEvidence`, `OutboxAttempts`, `OutboxLateFinalise` | which passes stand behind a final row, how many and how long; what a late worker can undo |
| `Shipper`, `ShipperRuns` | the log shipper's queue, batch and capped spool; conservation, order and bounds over every run |
| `Breaker`, `Resilient` | the circuit breaker in every interleaving, and retry around it |
| `LikePattern`, `LogStore`, `LogTimes`, `LiveTail` | log search as LIKE patterns, the log query, timestamps compared as text, and the live table |
| `RateLimit` | the fixed-window limiter over arbitrary intervals |
| `SigningKeys` | rotating signing keys against the gateway's cached copy |
| `RefreshSessions`, `RefreshSteps` | rotating refresh tokens, for calls one at a time and for calls that overlap |
| `Generation`, `GenerationRuns`, `GenerationAnswers`, `GenerationIdeas`, `GenerationRunAlone` | idempotent generation requests, the pipeline, both under every interleaving, and the steps against the sequential methods |
| `PollAnswers` | the poll form's answers against the server's validator |
| `Common` | the optional value and Go's white space |

A run is *timely* when each worker finalises its row or stops before the lease it took runs out. The code does not
enforce this: the finalising statements do not look at the status or the lease.

Where a comment in the code promises more than the code does, the model follows the code:

- `dispatcher.go:46-50` says a row is worked by one sweep at a time. That holds in timely runs
  (`OutboxLeases.OneWorkerAndFinalIsFinal`) and fails without (`OutboxLateFinalise.LateFinaliseUndoesSent`).
- `resilience.go` speaks of a single trial call when half-open; concurrent callers all get through
  (`Breaker.TrialsAreNotCounted`, from the start under every configuration).
- `limiter.go:27` says at most `limit` calls per window; that is true of the windows it opens and not of every interval
  of that length, unless the limit is 1 (`RateLimit.LimitHoldsAnywhereIff`).
- `identity_server.go:206` rotates refresh tokens with reuse detection that revokes the session, and `valkey.go:101`
  revokes by deleting it. Both hold for calls one at a time. Where calls overlap, a token can be honoured again, and a
  deleted session come back, exactly while a call that read the session before has yet to write it
  (`RefreshSteps.HonouredAgainIffAwaited`, `RefreshSteps.EndedComesBackIffAwaited`).
- `surprise_server.go:47-50` says the same key returns the original request. An expiry of the key's slot can break this
  exactly while the slot is held and the request not yet stored (`GenerationAnswers.ExpirySplitsIffNotStored`), though
  never the single request and job.
- `validate.go:13` refuses a single-choice answer with other than exactly one option; the code lets an optional one be
  empty (`PollAnswers.ChoicelessAcceptedIffOptional`).
- `store.go:181` says rows with an unparseable timestamp stay; the statement compares text, and only an empty one is
  spared (`LogTimes.UnparseableIsPruned`), and among timestamps text order is not always that of time
  (`LogTimes.PrunedTooEarlyIff`).

## Model

| member | source | states |
|---|---|---|
| `Outbox.KeysIdentifyEvents` | `services/backend/notification/internal/notify/types.go:94-140` | While the poll and request ids hold no colon, two events get one dedupe key exactly when kind, subject and user agree. |
| `Outbox.SharedKeyIffSpareColon` | `services/backend/notification/internal/notify/types.go:94-140` | For every well-formed event: some different event has its key if and only if there is a colon inside the subject (past its first character) or inside the user (before its last). |
| `Outbox.BackoffIsExact` | `services/backend/notification/internal/notify/dispatcher.go:140-150` | For a base delay under 2^47 ns the int64 product is the true one: base times 2^(attempts-1) capped at 2^16, between the base and 2^63. |
| `Outbox.BackoffFitsIff` | `services/backend/notification/internal/notify/dispatcher.go:140-150` | The delay is exact for every attempt number if and only if the base is under 2^47 ns. |
| `Outbox.BackoffDoublesThenStays` | `services/backend/notification/internal/notify/dispatcher.go:140-150` | Each attempt doubles the delay through the sixteenth doubling, then it stays; it never falls. |
| `Outbox.FirstAndLastBackoff` | `services/backend/notification/internal/notify/dispatcher.go:140-150` | The first delay is the base itself and, from the seventeenth attempt on, 2^16 times the base. |
| `OutboxService.Store.EnqueueOutbox` | `services/backend/notification/internal/domain/postgres/postgres.go:93-103` | A free key gains one pending row with no attempts and reports an insertion; a taken key, or a database error, leaves the table alone. |
| `OutboxService.Store.ClaimPending` | `services/backend/notification/internal/domain/postgres/postgres.go:109-142` | Leases the earliest due rows that no other statement holds, at most `limit`, fewer only when no more are due, and returns each once as it now is; no other row moves. An error returns no rows, with or without the lease in place. |
| `OutboxService.Store.MarkSent` | `services/backend/notification/internal/domain/postgres/postgres.go:144-147` | Sets status and time sent whatever the status was; reports an error for an unknown id. |
| `OutboxService.Store.Reschedule` | `services/backend/notification/internal/domain/postgres/postgres.go:149-152` | Makes the row pending again with the given attempts and due time whatever the status was. |
| `OutboxService.Store.MarkFailed` | `services/backend/notification/internal/domain/postgres/postgres.go:154-157` | Sets the status whatever it was; reports an error for an unknown id. |
| `OutboxService.Store.UpsertDevice` | `services/backend/notification/internal/domain/postgres/postgres.go:43-58` | A platform and token name one device: re-registering moves it to the new user, active, and keeps its id and first registration; a database error changes nothing. |
| `OutboxService.Store.DeactivateDeviceByToken` | `services/backend/notification/internal/domain/postgres/postgres.go:60-64` | Every device with the token, on either platform, becomes inactive; nothing else changes. |
| `OutboxService.Store.ActiveDevicesForUser` | `services/backend/notification/internal/domain/postgres/postgres.go:66-89` | Lists exactly the active devices of the user, each once, or reports a database error. |
| `OutboxService.PickEarliest` | `services/backend/notification/internal/domain/postgres/postgres.go:114-118` | The choice the claiming subselect makes: no unlocked due row left out is due earlier than one taken. |
| `OutboxService.Consumer.Handle` | `services/backend/notification/internal/notify/consumer.go:52-87` | Fails exactly for an undecodable or incomplete event or a database error, and then leaves the table as it was; otherwise the event has the row its key had, or a new one with its user, kind, ids and key, pending, unattempted and due at once. |
| `OutboxService.Consumer.Process` | `services/backend/notification/internal/notify/consumer.go:93-100` | Acknowledges only with the event's key in the table; no row is lost or changed, keys stay unique, and at most one row is added. |
| `OutboxService.Dispatcher.Dispatch` | `services/backend/notification/internal/notify/dispatcher.go:100-128` | The row ends sent exactly when the devices could be looked up and no active device of its user failed transiently; else failed if its attempts are used up, and otherwise pending with one attempt more, due after its delay. No other row changes. Exactly the devices sharing a token reported invalid whose statement got through are deactivated. |
| `OutboxService.Dispatcher.FanOut` | `services/backend/notification/internal/notify/dispatcher.go:107-121` | The loop over the devices notes whether any failed transiently and deactivates by the tokens reported invalid. |
| `OutboxService.Dispatcher.Retry` | `services/backend/notification/internal/notify/dispatcher.go:132-138` | Fails the row once the attempts reach the maximum, otherwise reschedules it with one more attempt and that attempt's delay. |
| `OutboxService.Dispatcher.RunOnce` | `services/backend/notification/internal/notify/dispatcher.go:84-95` | A failed claim ends the sweep with an error and no pass, its lease taken or not; otherwise unclaimed rows stay, and each claimed row, leased first, ends exactly as a pass over the devices it saw decides, those being the devices from before the sweep with at most some deactivated. |
| `OutboxService.Dispatcher.WorkThrough` | `services/backend/notification/internal/notify/dispatcher.go:89-93` | The loop over the claimed rows settles each by its own pass and touches no other row. |
| `OutboxAlone.AloneIsDispatch` | `services/backend/notification/internal/notify/dispatcher.go:84-138` | The steps of the protocol refine the sequential pass: whatever the provider and the database answer and in whatever order the devices come, a claimed row worked with nothing in between is a run that ends with the table and devices Dispatch leaves. |
| `OutboxProtocol.NothingLostNothingDoubled` | `services/backend/notification/internal/notify/consumer.go:78-100` | In every run of publish, deliver, record, ack, nak, redeliver, claim, push, finalise and crash steps, an acknowledged event has exactly one row under its key, and every row stands for a published event. |
| `OutboxProtocol.AckedEventsOwnTheirRows` | `services/backend/notification/internal/notify/consumer.go:89-100` | With colon-free subject ids, two acknowledged events share a row if and only if they are the same logical event, and the row carries the event's user and kind. |
| `OutboxProtocol.StepKeepsRows` | `services/backend/notification/internal/domain/postgres/postgres.go:93-157` | No step of anyone removes a row or changes its user, kind, payload, key or creation time. |
| `OutboxProtocol.BusRun` | `services/backend/notification/internal/domain/postgres/postgres.go:93-157` | The bus invariant survives every run, and so do the rows. |
| `OutboxLeases.ClaimsAreALeaseApart` | `services/backend/notification/internal/domain/postgres/postgres.go:105-142` | In every run, late workers and crashes included, two claims of one row are at least a lease apart unless it was rescheduled between them. |
| `OutboxLeases.OneWorkerAndFinalIsFinal` | `services/backend/notification/internal/notify/dispatcher.go:42-50` | When every worker finalises or stops within its lease, at most one owns a row at any moment, that row is pending, and a sent or failed row never changes again. |
| `OutboxSweeps.SweepsReachTheRow` | `services/backend/notification/internal/domain/postgres/postgres.go:109-120` | In every run, whatever other claims, events, passes and crashes come between and however the sweeps choose among equals: a pending row has been claimed, or finalised by a worker that still held it, by the time there are as many unlocked sweeps as there are batches of rows due no later, counting those that came to be so during the run. |
| `OutboxSweeps.PassedOver` | `services/backend/notification/internal/domain/postgres/postgres.go:114-118` | A sweep that passes over a due row takes a full batch of the rows due no later and puts them behind it. |
| `OutboxSweeps.AbandonedRowIsReclaimed` | `services/backend/notification/internal/notify/dispatcher.go:43-45` | From any state, however many rows are due before it, unlocked sweeps of the configured batch lease a pending row again once its due time has come, in at most |rows due no later| / batch + 1 of them: a crash never strands it. |
| `OutboxEvidence.FinalRowsAreJustified` | `services/backend/notification/internal/notify/dispatcher.go:100-138` | In every run, also without the lease assumption, the last finalising of a row decides its status: of a sent row, that of a pass in which every device then active took the push or had a dead token and none failed; of a failed row, that of a pass that ended transient; otherwise the row is pending. |
| `OutboxAttempts.FailedIffAttemptsExhausted` | `services/backend/notification/internal/notify/dispatcher.go:132-138` | In a timely run a row is failed if and only if MaxAttempts committed passes ended transient; its stored attempts are then one less, and before that they are the number of such passes. |
| `OutboxAttempts.RescheduleUsesAnAttempt` | `services/backend/notification/internal/notify/dispatcher.go:132-138` | Each committed reschedule of a timely run lowers the attempts left by exactly one and leaves at least one. |
| `OutboxAttempts.FailingTakesTheWholeSchedule` | `services/backend/notification/internal/notify/dispatcher.go:130-150` | Under every configuration a row that fails in a timely run does so no earlier than the sum of its MaxAttempts - 1 delays after its first transient pass ended; for up to 18 attempts that is BaseBackoff * (2^(MaxAttempts-1) - 1). |
| `OutboxAttempts.SpanIsClosed` | `services/backend/notification/internal/notify/dispatcher.go:140-150` | That sum doubles for 17 delays and then grows by the longest delay, as long as no delay overflows. |
| `OutboxLateFinalise.SentIsUndoneExactlyByATransientPass` | `services/backend/notification/internal/domain/postgres/postgres.go:144-157` | In any state a step takes a row out of sent if and only if it finalises a pass of that row that ended transient. |
| `OutboxLateFinalise.FailedIsUndoneExactlyByAnotherVerdict` | `services/backend/notification/internal/domain/postgres/postgres.go:144-157` | In any state a step takes a row out of failed if and only if it finalises a pass of that row that was delivered or has attempts left. |
| `OutboxLateFinalise.FinalRowsChangeOnlyLate` | `services/backend/notification/internal/notify/dispatcher.go:100-138` | After a timely run, a step that changes a sent or failed row in any way is a finalise of that row by a worker whose lease has run out. |
| `OutboxLateFinalise.LateFinaliseUndoesSent` | `services/backend/notification/internal/notify/dispatcher.go:46-50` | Under every configuration some run lets a worker that outlived its lease take a sent row back: the "one sweep at a time" of the type comment needs the lease assumption. |
| `Shipper.PostsDeliverAPrefix` | `pkg/logkit/shipper.go:166-174` | The accepted chunks, one after another, are exactly the records before the first that was not accepted. |
| `Shipper.PostsHaveShape` | `pkg/logkit/shipper.go:166-196` | Every POST carries 1 to BatchSize records, nothing follows a refused POST, and one is refused exactly when records are left, starting with the first of them. |
| `Shipper.OverflowIsLeast` | `pkg/logkit/shipper.go:300-323` | What the cap drops brings the rest under the limit, and no shorter oldest prefix would. |
| `Shipper.OverflowIsTheOnlyCut` | `pkg/logkit/shipper.go:300-323` | It is the only cut that does both. |
| `Shipper.EnoughHealthTakesAll` | `pkg/logkit/shipper.go:166-174` | A server that takes every POST leaves no record. |
| `Shipper.PostAt` | `pkg/logkit/shipper.go:164-174` | POST i carries records i * BatchSize to (i+1) * BatchSize, as far as there are any. |
| `Shipper.SentOffMeans` | `pkg/logkit/shipper.go:164-174` | One send: the server has whole chunks for as long as it was healthy, in order; the rest is spooled at the end, the spool keeping the newest records that fit and evicting just the older ones, or is counted as dropped when the file cannot be opened; nothing else changes. |
| `Shipper.DrainedMeans` | `pkg/logkit/shipper.go:176-196` | One retry: whole chunks leave the front of the spool for as long as the server was healthy, delivered in order; nothing else changes. |
| `Shipper.Shipper.Enqueue` | `pkg/logkit/shipper.go:64-72` | Below the queue size the record is queued at the end and nothing is dropped; at it the queue stays and the record is counted as dropped. |
| `Shipper.Shipper.Send` | `pkg/logkit/shipper.go:164-174` | The loop of POSTs and the spooling of the rest, with the outcome SentOffMeans gives. |
| `Shipper.Shipper.SpoolAppend` | `pkg/logkit/shipper.go:227-248` | Appends in order and leaves the spool within its limit; a file that cannot be opened counts every record as dropped. |
| `Shipper.Shipper.EnforceCap` | `pkg/logkit/shipper.go:300-323` | Evicts exactly the prefix of OverflowIsLeast, by the loop on the estimated size. |
| `Shipper.Shipper.DrainSpool` | `pkg/logkit/shipper.go:176-196` | Rewrites the spool to exactly what was not delivered, with the outcome DrainedMeans gives. |
| `Shipper.Shipper.DrainQueue` | `pkg/logkit/shipper.go:126-136` | Moves the whole queue to the end of the batch, in order. |
| `Shipper.Shipper.OnRecord` | `pkg/logkit/shipper.go:89-94` | Batches one record and sends a full batch. |
| `Shipper.Shipper.OnFlushTick` | `pkg/logkit/shipper.go:96-100` | Sends what is batched and starts a new batch. |
| `Shipper.Shipper.OnFlushRequest` | `pkg/logkit/shipper.go:105-121` | Drains the queue, sends, then retries the spool, as flush and shutdown both do. |
| `ShipperRuns.EveryRecordIsInOnePlace` | `pkg/logkit/shipper.go:64-323` | In every run each offered record is in exactly one of acknowledged, spooled, batched, queued, evicted and dropped, no other record is anywhere, the dropped counter is exact, and spool, batch and queue together are in the order of offering. |
| `ShipperRuns.RunsStayBounded` | `pkg/logkit/shipper.go:77-124` | Every run keeps queue, batch, spool and POSTs within their configured sizes. |
| `ShipperRuns.HealthyFlushLeavesNothing` | `pkg/logkit/shipper.go:105-121` | A flush or shutdown that meets a healthy server delivers batch and spool completely. |
| `ShipperRuns.DropsIff` | `pkg/logkit/shipper.go:64-72` | A step drops a record if and only if it offers one to a full queue, or sends a batch that the server does not take whole while the spool file cannot be opened. |
| `Breaker.Breaker.constructor` | `services/backend/surprise/internal/resilience/resilience.go:41-51` | Starts closed without failures, with the given limit raised to at least 1 and the given open window. |
| `Breaker.Breaker.Current` | `services/backend/surprise/internal/resilience/resilience.go:53-60` | Reports the state after the lapse of the open window has been noted. |
| `Breaker.Breaker.Admit` | `services/backend/surprise/internal/resilience/resilience.go:71-77` | The first half of Do lets a call through exactly when the circuit is not open any more. |
| `Breaker.Breaker.Complete` | `services/backend/surprise/internal/resilience/resilience.go:81-93` | The second half of Do: one more failure or a reset, and when the circuit opens. |
| `Breaker.Breaker.Do` | `services/backend/surprise/internal/resilience/resilience.go:68-94` | With nothing in between Do is its two halves, and a refused call changes nothing but the noted lapse. |
| `Breaker.BreakerIsItsHistory` | `services/backend/surprise/internal/resilience/resilience.go:62-94` | In every interleaving of concurrent calls the counter is the run of failed completions since the last success, the circuit is closed exactly while that is under the limit, and whether a call gets through depends on the completions alone. |
| `Breaker.TrialsAreNotCounted` | `services/backend/surprise/internal/resilience/resilience.go:26-29` | Under every configuration, after maxFailures failing calls and a wait of openDuration any number of calls gets through the half-open circuit before one completes: the "single trial call" of the type comment is for sequential callers only. |
| `Breaker.WhileOpenOneTrialPerWindow` | `services/backend/surprise/internal/resilience/resilience.go:62-94` | While a dependency keeps failing, the i-th sequential call to reach it after the opening starts no earlier than i open windows later. |
| `Breaker.UntilOpenAllReach` | `services/backend/surprise/internal/resilience/resilience.go:70-94` | From closed, the calls that use up the limit all reach it and the last of them opens the circuit. |
| `Breaker.FewCallsReachAFailingDependency` | `services/backend/surprise/internal/resilience/resilience.go:62-94` | From closed with f failures, up to time T after the opening at most maxFailures - f + T/openDuration sequential calls reach it. |
| `Resilient.Attempt` | `services/backend/surprise/internal/llm/llm.go:128-134` | One attempt through the breaker: the captured value and the error are the inner call's, or the breaker refuses. |
| `Resilient.Retry` | `services/backend/surprise/internal/resilience/resilience.go:104-133` | The loop of rounds, with the result that CallThrough spells out. |
| `Resilient.CallThrough` | `services/backend/surprise/internal/llm/llm.go:126-148` | From closed: while the failures before it leave the circuit closed, the first round that does not fail transiently decides the result (its value, its unwrapped permanent error, or the cancellation), or else the last of max(1, MaxAttempts) rounds; and when all fail the inner client is called exactly min(max(1, MaxAttempts), maxFailures - f) times, if no round comes late enough for a trial. |
| `Resilient.SuccessIsTheLastCallsOwn` | `services/backend/surprise/internal/llm/llm.go:126-148` | A successful call returns the value of the inner client's last call, which succeeded, and leaves the breaker closed with no failures. |
| `Resilient.OpenShutsOut` | `services/backend/surprise/internal/resilience/resilience.go:70-77` | Rounds that start within the open window do not reach the inner client and do not move the breaker, and without cancellation the call ends with the circuit-open error. |
| `Resilient.OneCallReachesAtMost` | `services/backend/surprise/internal/resilience/resilience.go:104-133` | One call from closed with f failures reaches the inner client at most min(MaxAttempts, maxFailures - f) times while what follows the opening stays under openDuration. |
| `Resilient.OneFailingCallReachesExactly` | `services/backend/surprise/internal/resilience/resilience.go:104-133` | And exactly that often when every call fails transiently and nobody cancels. |
| `LikePattern.BuildPattern` | `services/backend/log-server/internal/store/store.go:196-214` | The rune loop builds the pattern whose meaning SearchMeansWhatItSays gives. |
| `LikePattern.SearchMeansWhatItSays` | `services/backend/log-server/internal/store/store.go:120-123` | For every query and message: with a star, the message is found exactly when it is the query with each star replaced by some run of text; without, exactly when it contains the query; both up to ASCII case. |
| `LikePattern.LowerCommutes` | `services/backend/log-server/internal/store/store.go:120-123` | Lowercasing the pattern is translating the lowercased query. |
| `LikePattern.PatternIsWellEscaped` | `services/backend/log-server/internal/store/store.go:191-214` | No pattern ends in a dangling escape and only the three special characters are ever escaped, before and after lowercasing. |
| `LikePattern.AnywhereMeansContains` | `services/backend/log-server/internal/store/store.go:195-214` | The wrapped pattern of a starless query matches exactly the messages that contain it. |
| `LikePattern.BodyMeansFilled` | `services/backend/log-server/internal/store/store.go:196-214` | A translated query matches exactly the texts that fill its stars. |
| `LogStore.Store.Insert` | `services/backend/log-server/internal/store/store.go:56-91` | All records of a batch or none, with increasing ids that are never used twice. |
| `LogStore.Store.Select` | `services/backend/log-server/internal/store/store.go:93-158` | Highest id first and at most the limit (200 for 0 or less, never over 1000): exactly the rows that meet each set filter on service, level, from, to, text and id, unless the limit is used up by rows of higher ids. |
| `LogStore.Store.Prune` | `services/backend/log-server/internal/store/store.go:180-189` | Removes exactly the rows with a timestamp text before the cutoff and counts them; rows without a timestamp stay. |
| `LogStore.AllKeptAreTheMatches` | `services/backend/log-server/internal/store/store.go:93-158` | The listing is descending and holds exactly the rows the filters keep. |
| `LogTimes.TextOrderIsTimeOrderIff` | `services/backend/log-server/internal/store/store.go:108-115` | Two UTC timestamps compare as text the way their moments do, both ways, if and only if they are not of one second with one fraction the beginning of the other. |
| `LogTimes.FixedDigitsCompareAsTime` | `services/backend/log-server/internal/store/store.go:108-115` | Timestamps written with the same number of fraction digits always compare as their moments do. |
| `LogTimes.RangeSelectsByTime` | `services/backend/log-server/internal/store/store.go:108-115` | With as many fraction digits in every stamp, a query from one time to another keeps exactly the rows whose moment lies between the two. |
| `LogTimes.PrunedTooEarlyIff` | `services/backend/log-server/internal/store/store.go:180-189` | A row no older than the cutoff is pruned if and only if both are of one second and the cutoff's fraction is a proper beginning of the row's. |
| `LogTimes.KeptTooLongIff` | `services/backend/log-server/internal/store/store.go:180-189` | A row older than the cutoff is kept if and only if both are of one second and the cutoff's fraction goes on after the row's with more than zeros. |
| `LogTimes.UnparseableIsPruned` | `services/backend/log-server/internal/store/store.go:180-184` | A row stamped "0", which is no timestamp, is pruned by every cutoff after the year 999. |
| `LiveTail.NextAfter` | `services/frontend/log-viewer/src/tail.ts:6-17` | The cursor never moves back, is the largest id seen, and bounds all of them. |
| `LiveTail.MergeRows` | `services/frontend/log-viewer/src/tail.ts:19-39` | The merge loop, whose result MergedMeans and MergedIsTopOfUnion give. |
| `LiveTail.MergedMeans` | `services/frontend/log-viewer/src/tail.ts:24-39` | Of each id the first row counts, fetched before shown ones; the result is newest first and leaves out only what the cap cuts off below. |
| `LiveTail.MergedIsTopOfUnion` | `services/frontend/log-viewer/src/tail.ts:19-39` | Merging two excerpts of a descending listing that between them hold its first `cap` rows gives exactly those rows. |
| `LiveTail.TableIsTheNewestMatches` | `services/frontend/log-viewer/src/App.tsx:67-107` | In every interleaving of inserts, overlapping requests, answers and losses with no answer cut off, the table is descending without duplicates and is the newest 5000 of the first load's rows and all matching rows up to the cursor. |
| `LiveTail.ReceivingCatchesUp` | `services/frontend/log-viewer/src/App.tsx:85-102` | An answer received brings the cursor to every matching row the server had when it answered. |
| `LiveTail.TickCatchesUpIffNotCutOff` | `services/frontend/log-viewer/src/App.tsx:85-102` | A tick gives the newest rows of everything so far if and only if no more new rows matched than the query limit. |
| `LiveTail.LoadedSatisfiesInv` | `services/frontend/log-viewer/src/App.tsx:67-75` | The first load shows what lies above the first row it left out. |
| `RateLimit.Window.Allow` | `services/backend/api-gateway/internal/ratelimit/limiter.go:49-68` | Opens a window when there is none or it has ended, counts into it below the limit and else refuses, for this key only; a limit of 0 or less always allows and touches nothing. |
| `RateLimit.AllowedInAnyInterval` | `services/backend/api-gateway/internal/ratelimit/limiter.go:27-68` | In every run on a non-decreasing clock, for every key and k >= 1, a closed interval of k window lengths holds at most (k+1) * limit - 1 allowed calls. |
| `RateLimit.BoundIsReached` | `services/backend/api-gateway/internal/ratelimit/limiter.go:27-29` | No smaller bound holds, for every limit and every k up to the window length; so nearly twice the "at most limit calls per window" of the type comment fit in some intervals of one window. |
| `RateLimit.LimitHoldsAnywhereIff` | `services/backend/api-gateway/internal/ratelimit/limiter.go:27-68` | The exact condition, for every positive limit: in every run every stretch of one window's length holds at most limit allowed calls of a key if and only if the limit is 1 or the window has no length. |
| `RateLimit.RefusedOnlyWhenFull` | `services/backend/api-gateway/internal/ratelimit/limiter.go:57-67` | A key is refused only by a window holding exactly its last `limit` allowed calls, all at most one window length old. |
| `RateLimit.CallsApart` | `services/backend/api-gateway/internal/ratelimit/limiter.go:49-68` | Of any (k+1) * limit consecutive allowed calls of a key the last comes more than k windows after the first. |
| `SigningKeys.Manager.Issue` | `services/backend/identity/internal/token/token.go:98-130` | A token names the key that signs it, and that name resolves to it. |
| `SigningKeys.Manager.Rotate` | `services/backend/identity/internal/token/token.go:212-225` | The new key becomes current, the old current previous, and the old previous is gone. |
| `SigningKeys.Manager.PublicKeyByKid` | `services/backend/identity/internal/token/token.go:178-188` | Resolves the current and the previous id and no other. |
| `SigningKeys.Manager.PublishedKeys` | `services/backend/identity/internal/token/token.go:190-210` | Publishes the current key, then the previous one if there is one. |
| `SigningKeys.ResolvesUntilTheSecondRotation` | `services/backend/identity/internal/token/token.go:178-225` | A token minted after r rotations resolves after s >= r of them if and only if s <= r + 1, and to its own key. |
| `SigningKeys.Verifier.RefreshLocked` | `services/backend/api-gateway/internal/auth/verifier.go:179-199` | A failed fetch, or one with no usable key, leaves the cache alone; otherwise the cache becomes exactly the usable keys. |
| `SigningKeys.UsableIsLastOfEach` | `services/backend/api-gateway/internal/auth/verifier.go:179-199` | The usable keys by id, of several with one id the last; there are none exactly when no key is usable. |
| `SigningKeys.Verifier.KeyFor` | `services/backend/api-gateway/internal/auth/verifier.go:157-177` | Fetches exactly when the cache is empty, stale or lacks the id, and leaves it alone otherwise or when the fetch fails; then answers from the cache: no keys, unknown key or the key. |
| `SigningKeys.LookupsAreCurrent` | `services/backend/api-gateway/internal/auth/verifier.go:157-199` | In every run of issuing, rotating and lookups, with rotations during a fetch: a lookup finds only minted keys under their own id, finds every key published throughout when its fetch succeeds or is not needed, and then never one retired ttl plus the answer's delay ago or longer. |
| `SigningKeys.LiveTokensResolve` | `services/backend/identity/internal/token/token.go:9-12` | With rotations at least a token lifetime apart, and as much more as the token's call let pass between reading the key and the clock, every unexpired token of every run resolves to the key that signed it, in Identity and in each gateway lookup without a failed fetch. |
| `RefreshSessions.SplitUndoesEncoded` | `services/backend/identity/internal/app/identity_server.go:398-405` | A string splits into a session id and secret if and only if it is the encoding of them and both are well formed. |
| `RefreshSessions.IndexOfIsFirst` | `services/backend/identity/internal/app/identity_server.go:400` | The index found is that of the first such character, and -1 means there is none. |
| `RefreshSessions.Server.IssuePair` | `services/backend/identity/internal/app/identity_server.go:335-358` | Stores one new session of the given user and device with the hash of the secret, issued now and expiring refreshTTL later, unless there is no secret or the write fails without effect; hands out the token only when all went well. |
| `RefreshSessions.Server.RefreshToken` | `services/backend/identity/internal/app/identity_server.go:206-253` | A token that does not fit its session, or comes too late, ends the session; one that fits has its secret replaced and all else kept; faults answer Internal. |
| `RefreshSessions.Server.Revoke` | `services/backend/identity/internal/app/identity_server.go:255-275` | Removes the session named by id or by token; succeeds also when it is gone already. |
| `RefreshSessions.TokensAreHonouredOnce` | `services/backend/identity/internal/app/identity_server.go:206-253` | In every run of non-overlapping calls, store faults included, each refresh token is honoured at most once, the one accepted next is the newest of a live unexpired session and nothing else, and user, device and expiry are those the sign-in was given. |
| `RefreshSessions.HandedOutIsAccepted` | `services/backend/identity/internal/app/identity_server.go:229-252` | The token a sign-in or refresh hands out is accepted by the session it left exactly until its expiry. |
| `RefreshSessions.ReuseEndsTheSession` | `services/backend/identity/internal/app/identity_server.go:219-224` | With calls one at a time, presenting a superseded token, or any wrong secret, ends the session for good: no later run accepts any of its tokens. |
| `RefreshSessions.EndedForGood` | `services/backend/identity/internal/app/identity_server.go:206-275` | With calls one at a time a session once gone never comes back. |
| `RefreshSteps.HonouredTwiceOnlyByOverlap` | `services/backend/identity/internal/app/identity_server.go:206-253` | With reading and writing a session as separate steps and any number of calls at once: two calls that honour one token each read before the other wrote, a token once honoured is not accepted again, and no session's expiry moves. |
| `RefreshSteps.CallsApartHonourOnce` | `services/backend/identity/internal/app/identity_server.go:206-253` | Calls of one session that keep apart honour each of its tokens at most once, whatever other sessions do. |
| `RefreshSteps.AloneIsRefreshToken` | `services/backend/identity/internal/app/identity_server.go:206-253` | The steps refine the sequential method: a call with nothing in between leaves the sessions of Server.RefreshToken and honours its token exactly when that hands out a new one. |
| `RefreshSteps.HonouredAgainIffAwaited` | `services/backend/identity/internal/app/identity_server.go:219-252` | The exact condition, in every reachable state: a token already honoured can be honoured again if and only if some call has read its session while the token still fitted and has yet to write. |
| `RefreshSteps.EndedComesBackIffAwaited` | `services/backend/identity/internal/domain/valkey/valkey.go:54-57` | The exact condition, in every state: a session that has ended can come back if and only if some call that found its token to fit has yet to write it, since Update overwrites without looking. |
| `RefreshSteps.OverlapHonoursTwice` | `services/backend/identity/internal/app/identity_server.go:206-253` | Such a state is reached for every token: honoured once and still to be honoured once more. |
| `RefreshSteps.OverlapRevivesSession` | `services/backend/identity/internal/domain/valkey/valkey.go:54-57` | Such a state is reached for every session: revoked, and still to be written back. |
| `Generation.Store.CreateRequest` | `services/backend/surprise/internal/domain/memory/memory.go:44-57` | Refuses a taken key and leaves everything as it was; else stores the request under its id and key. |
| `Generation.Store.SetIdempotencyIfAbsent` | `services/backend/surprise/internal/domain/memory/memory.go:171-179` | The first caller gets the slot; later ones learn who has it. |
| `Generation.Store.SetRequestStatus` | `services/backend/surprise/internal/domain/memory/memory.go:81-90` | Changes only the status, only of a stored request. |
| `Generation.Store.MarkRefinement` | `services/backend/surprise/internal/domain/memory/memory.go:92-102` | Records the refinement and queues the request again. |
| `Generation.Store.SaveIdeas` | `services/backend/surprise/internal/domain/memory/memory.go:104-114` | Replaces the ideas of one request. |
| `Generation.Store.SetStatus` | `services/backend/surprise/internal/domain/memory/memory.go:154-159` | Replaces the cached status of one request. |
| `Generation.Store.GetRequestByIdempotencyKey` | `services/backend/surprise/internal/domain/memory/memory.go:70-79` | Finds the stored request of the key, if there is one. |
| `Generation.Server.RequestGeneration` | `services/backend/surprise/internal/app/surprise_server.go:51-105` | A malformed request changes nothing; a stored key answers its own request with its status and enqueues nothing; a key only claimed answers the claimer's id; a new key is stored, queued and enqueued once. |
| `Generation.Server.ExistingResponse` | `services/backend/surprise/internal/app/surprise_server.go:107-118` | Answers the slot's id when stored, else the key's request, else the slot's id as queued. |
| `Generation.Server.Refine` | `services/backend/surprise/internal/app/surprise_server.go:187-206` | Queues a stored request again with the refinement and enqueues one job; an unknown one changes nothing. |
| `Generation.ModerateValidateRank` | `services/backend/surprise/internal/pipeline/pipeline.go:156-189` | The loop yields the candidates with a title that were approved, in order, ranked from 1. |
| `Generation.KeptAreTheSurvivors` | `services/backend/surprise/internal/pipeline/pipeline.go:162-174` | The ideas are exactly the surviving candidates, each once and in candidate order. |
| `Generation.Pipeline.SetStatus` | `services/backend/surprise/internal/pipeline/pipeline.go:191-198` | Writes the cached status, and the stored one only for running. |
| `Generation.Pipeline.FailRun` | `services/backend/surprise/internal/pipeline/pipeline.go:200-203` | Marks both statuses failed. |
| `Generation.Pipeline.Conclude` | `services/backend/surprise/internal/pipeline/pipeline.go:100-121` | With no survivor both statuses say failed and the ideas stay; otherwise the ideas are the survivors, both statuses say ready and their number is announced. |
| `Generation.Pipeline.Run` | `services/backend/surprise/internal/pipeline/pipeline.go:50-122` | The same for the whole run from any store, whatever the status was before, using the cached response when it has one. |
| `GenerationRuns.OneRequestAndOneJob` | `services/backend/surprise/internal/app/surprise_server.go:68-104` | In every interleaving, faults, crashes and expiring slots included, a key has at most one stored request and RequestGeneration enqueues at most one job for it, after it is stored. |
| `GenerationAnswers.CallersOfAKeyAgree` | `services/backend/surprise/internal/app/surprise_server.go:47-118` | With no fault in RequestGeneration and no slot expiring before its request is stored, all callers get one id, and with no call in flight it is the key's one stored request with its one job. |
| `GenerationAnswers.ExpirySplitsIffNotStored` | `services/backend/surprise/internal/app/surprise_server.go:68-75` | The exact condition: in a state reached that way, the expiry of a key's slot can lead to two different ids for the key, with nothing else going wrong, if and only if the slot is held and the key's request not yet stored. |
| `GenerationAnswers.AloneIsRequestGeneration` | `services/backend/surprise/internal/app/surprise_server.go:51-118` | The steps refine the sequential method: a call left alone ends within four faultless steps, with the table, job and answer of Server.RequestGeneration in each of its cases. |
| `GenerationAnswers.ExpiryUnderACallSplitsAnswers` | `services/backend/surprise/internal/app/surprise_server.go:68-75` | Such a state is reached: a run from the start, without fault or crash, in which one expiry gives two callers of one key different ids. |
| `GenerationIdeas.ReadyMeansModeratedIdeas` | `services/backend/surprise/internal/pipeline/pipeline.go:54-122` | In every interleaving of requests, refinements and worker runs: a ready status, stored or cached, means a non-empty idea list, and every list is exactly what one run of that request approved, ranked 1..n in candidate order. |
| `GenerationIdeas.AnnouncementsAreTrue` | `services/backend/surprise/internal/pipeline/pipeline.go:112-120` | Every announced count is the number of ideas a run of that request approved, and at least one. |
| `GenerationRunAlone.AloneIsPipelineRun` | `services/backend/surprise/internal/pipeline/pipeline.go:54-122` | The worker's steps refine the sequential pipeline: a run left alone ends within 13 steps with the store and the event of Pipeline.Run. |
| `GenerationRunAlone.AloneIsRefine` | `services/backend/surprise/internal/app/surprise_server.go:187-206` | A refinement with nothing in between ends within 4 steps as Server.Refine does: a stored request queued again under the new text with one job, or no change. |
| `PollAnswers.ValidateQuestions` | `services/backend/poll/internal/domain/model/questions.go:8-50` | Accepts exactly the non-empty lists of distinct, well-formed questions; the error is the first fault of the first question at fault. |
| `PollAnswers.ValidateOptions` | `services/backend/poll/internal/domain/model/questions.go:31-43` | Accepts exactly distinct options with non-blank ids; the error names the first option at fault. |
| `PollAnswers.ValidateAnswers` | `services/backend/poll/internal/domain/model/validate.go:16-65` | Returns the verdict whose acceptance AcceptedMeansComplete gives and whose errors RefusalNamesTheFirstFault gives. |
| `PollAnswers.RequireAnswered` | `services/backend/poll/internal/domain/model/validate.go:67-85` | Asks the first answer to the question whether it says something. |
| `PollAnswers.OptionSet` | `services/backend/poll/internal/domain/model/validate.go:87-93` | Exactly the ids of the options. |
| `PollAnswers.AcceptedMeansComplete` | `services/backend/poll/internal/domain/model/validate.go:8-65` | A submission is accepted if and only if every answer fits a question of the poll, none is answered twice and every required one is answered with something. |
| `PollAnswers.RefusalNamesTheFirstFault` | `services/backend/poll/internal/domain/model/validate.go:16-65` | A refused submission gets the first fault of the first answer at fault, in the order the checks are made, or when none is, the first required question that no answer says anything to. |
| `PollAnswers.ByIdIsLast` | `services/backend/poll/internal/domain/model/validate.go:17-20` | An answer is held against the last question of its id. |
| `PollAnswers.ChoicelessAcceptedIffOptional` | `services/backend/poll/internal/domain/model/validate.go:13` | An otherwise complete submission with a choiceless answer to a single-choice question is accepted if and only if that question is optional. |
| `PollAnswers.ChoicelessAnswerAccepted` | `services/backend/poll/internal/domain/model/validate.go:13` | Such a submission exists for every valid id, prompt and option. |
| `PollAnswers.BuildAnswers` | `services/frontend/poll-web/src/answers.ts:28-42` | The loop builds the answers that BuiltAreTheAnswers describes. |
| `PollAnswers.BuiltAreTheAnswers` | `services/frontend/poll-web/src/answers.ts:28-43` | The form submits one answer, in order, to each question that has a choice or a text of more than white space: its trimmed text or its choices. |
| `PollAnswers.MissingAreTheUnanswered` | `services/frontend/poll-web/src/answers.ts:21-26` | The form lists as missing exactly the required questions without an answer, the first one first. |
| `PollAnswers.ServerSeesTheFirstUnmet` | `services/frontend/poll-web/src/answers.ts:21-42` | For an accepted question list and what the form offers, the server's verdict on the built answers is the first unmet required question and never anything else. |
| `PollAnswers.ServerAcceptsWhen` | `services/frontend/poll-web/src/answers.ts:21-42` | The server accepts the built answers if and only if the form misses nothing and no required text is one that only the server trims to nothing; without such a text the server names the form's first missing question. |
| `PollAnswers.FormAndServerAgreeIff` | `services/frontend/poll-web/src/answers.ts:21-42` | Form and server agree on whether the answers are complete if and only if the form itself misses something or no required text is one that only the server trims to nothing. |
| `PollAnswers.TrimCutsTheEnds` | `services/frontend/poll-web/src/answers.ts:15-19` | Trimming cuts exactly the white space at both ends. |
| `PollAnswers.NextLineLooksAnswered` | `services/frontend/poll-web/src/answers.ts:15-19` | A required text of U+0085 alone passes the form and is refused by the server. |
| `PollAnswers.BlankOnlyWithNextLine` | `services/frontend/poll-web/src/answers.ts:15-19` | Only text with a U+0085 in it can be an answer to the form and blank to the server. |

## Left out

- The other copies of `logkit` and the poll service's copy of the key verifier: the same code as here.
- HTTP, gRPC, NATS, Valkey, SQL, APNs, FCM and the language model: their answers are parameters or free choices of a step.
- Signatures, hashes and random ids: keys and key ids are abstract, a digest stands for its secret, ids and secrets are fresh.
- JSON text, byte-level file formats and text that is not valid Unicode: a spooled record has an identity and a line length.
- Spool reads, rewrites and record encoding that fail, lines over the scanner's limit, and corrupt lines: only opening the spool for appending may fail.
- A shipper process that ends without shutdown: its queue and batch are gone with it; a later process starts over the spool left behind.
- Overflow of counters (`failures`, `attempts`, `count`, `dropped`) and of Retry's backoff shift, and clocks that step back; the dispatcher's delay does wrap as an int64.
- The moment between reading the clock and taking a lock, except in the outbox protocol, where a reading may be older than its statement; Issue does read the clock some time after its key.
- Title and body of push messages and the order in which devices are listed.
- Negative durations in settings: the limiter's window, the key cache's lifetime and the breaker's open window, where a bound is stated.
- Claiming as update and subselect separately: one atomic step; rows other statements hold are a parameter.
- LiveTail.MergeRows: the sort is the function it is proved equal to, not the engine's algorithm.
- Changing filters, reloads racing ticks, pruning under a live table and filters relative to the current time.
- LIKE on letters outside ASCII: SQLite folds ASCII only, and so does the model.
- Expired or malformed tokens at the gateway: claim checks, signature checks and parsing of key formats.
- A refresh call as one step in `RefreshSessions`; `RefreshSteps` separates its read from its write, and states what each session keeps and what an overlap can undo. Deletes that fail, and sign-in itself before a pair is issued.
- Timestamps in other zones than UTC.
- The response cache's keys and its expiry, embeddings, grounding and idea ids: the cached response of a run is any list of candidates.
- Ownership checks, status and idea reads, saving an idea for a user.
- SetIdempotencyIfAbsent as two commands: one step, so a slot that expires between them shows only as a failed call.
- Poll questions whose id is a built-in property name of a JavaScript object, for which the form reads that property.
- Prompts, captions and other text that no check looks at beyond being blank.
