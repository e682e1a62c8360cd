# A model of the local print service

This project models the parts of the print service that decide whether a label
is printed once, twice or not at all, and proves what they guarantee. The
service accepts print jobs over a local HTTP interface and from a cloud broker,
keeps a bounded history of them in memory and in a snapshot file, and runs each
job on a worker that drives a printer.

How the pieces relate:

- `Options`, `Jobs`: optional values; job records and their states.
- `Retention`: the bounded history on values. What a save writes, what a load
  restores, which record admission evicts.
- `Service`: the shared state of the service as a class. Each critical section
  of `submit`, of the worker and of a cancellation is one method, proved against
  the functions of `Retention`.
- `Machine`: the executor as a machine whose steps are those critical sections
  and the single steps of a worker. One task is one `submit` call with the
  worker it may start; any step of any task may come next, any save may fail, a
  task may be dropped or panic, the process may restart between any two steps.
  A log records what happened.
- `Invariants`, `Execution`, `History`: what every step keeps of the store and
  the tasks, of the work and the locks, and of the log.
- `Runs`: the guarantees over all runs. `Retries`: how a repeated key is answered.
  `Cancellations`: how a cancellation finds its worker. `Limits`: runs in which a
  key executes again. `Orphans`: the jobs that stay in the map without a worker,
  and exactly when there are any.
- `Transports`: the cancellable transport wrapper as a class.
- `CloudStore`, `CloudAgent`: the record of cloud deliveries as a class, and the
  agent as a second machine around the executor.
- `Auth`, `AuthRuns`: grants, pairings and Wi-Fi approvals as a class over a
  file, and their histories over all runs of the service and of command-line
  processes. `Grants`: what a secret, a token, a revocation and a rotation are
  good for.
- `Strings`, `Ipp`, `Http`, `Endpoint`: the string operations of the Rust
  library that the parsers use, the IPP codec (RFC 8010), the HTTP read loop
  (section 6.3 of RFC 9112) and the endpoint addresses. `Replies`: a printer's
  reply from its text to the attribute map.
- `Grids`, `Rasters`, `Tiles`, `Sheet`, `Batch`: positions in
  grids, scaling and fitting, tiling, the sheet test and the layout of a batch.

What the models assume of what is outside them:

- A generated job id is new, and the broker's ids never meet generated ones. The
  random values of the grant store are new too, and distinct salted secrets have
  distinct digests.
- A file is replaced as a whole or left as it was.
- The SDK executor makes any transport calls in any order and any number. It
  reports that bytes may have been accepted no later than its first write, and
  never takes that back (src/api.rs:3492-3556).
- The clock is an input: every reading may be any number.
- Lossy UTF-8 decoding is any function that does not make a text longer than
  its bytes.
- A raster has one byte a pixel and fewer than 2^32 pixels; the renderer stops
  at 64 Mi (src/raster.rs:40, 57).
- On a sheet, a label of column `c` starts at `margin + c * (width + gap)`, and
  rows likewise; the SDK draws them.

Where the guarantees end is part of the result, with the exact condition each
time.

- A restart that cannot read the snapshot, or a service without a snapshot path,
  executes a key again (`Limits.ForgettingRestartExecutesAgain`).
- A job can stay active in the map with no worker. Within one process this
  happens exactly when an admission of a durable service fails to save, or when
  a submission is dropped after its job was inserted or its worker panics
  (`Orphans.AttendedExactlyWhenFaultless`). It lasts until the next restart.
- A tall image need not fit a box. The exact conditions of a build with debug
  assertions and of one without them differ (`Rasters.FittedWithAssertions`,
  `Rasters.FittedWithoutAssertions`, `Rasters.ShortImageFitsWithoutAssertions`).
- How the bytes of a response are cut into reads does not matter exactly when none
  of the bytes that its last read can bring in changes what the response says or
  passes the size limit (`Http.OneAnswerExactlyWhenSteady`). A body with its end
  tag, or one that nothing follows, is such a case (`Http.UnambiguousIsSteady`); a
  body without one need not be (`Http.UnfinishedHasTwoAnswers`).
- The position reported for a batch would go back for a plan that marks more
  pages than the batch has labels (`Batch.NeverGoesBackExactlyWhen`,
  `Batch.ThreePagesForTwoCopies`). The planner belongs to the SDK; whether it
  makes such a plan is not decided here.
- A later Wi-Fi prepare that could not be saved stops the earlier approval until
  the store is reloaded, and not after that (`AuthRuns.ApprovalsAreJustified`,
  `AuthRuns.UnsavedPrepareIsForgotten`).
- A terminal record comes back unchanged from a restart exactly when the snapshot
  can be read and what it holds of the job reads back as that record; one that was
  last saved as active comes back as of unknown outcome
  (`Runs.TerminalRecordSurvivesExactlyWhen`).

docs/api.md says that an exact retry returns the original job even after a
restart. The code keeps that promise exactly while the record is retained
(`Retries.RetryReturnsTheOriginal`, `Retries.RetryAfterRestart`); once it was
evicted, the same key executes again (`Limits.EvictedKeyExecutesAgain`). The model
follows the code.

## Model

| member | source | states |
|---|---|---|
| `Retention.LoadOfSnapshot` | src/api/jobs.rs:38-78 | loading a saved history gives exactly its most recent records, as many as the limits allow, with active work marked as of unknown outcome and nothing else changed |
| `Retention.RestartKeepsEverything` | src/api/jobs.rs:38-78 | a history within the limit comes back whole after a restart |
| `Retention.ListingIsUnique` | src/api/jobs.rs:69-70 | the order of a snapshot does not depend on the order in which the map is visited |
| `Retention.SortIsStable` | src/api/jobs.rs:45 | sorting any file orders it by update time and id, keeps every record, and leaves records of the same time and id in their order |
| `Retention.CollectKeepsTheLast` | src/api/jobs.rs:49-58 | of several records of one id in a file the last in order is restored |
| `Retention.VictimExists` | src/api/jobs.rs:938-942 | a history with a terminal record has one that is least by update time and id |
| `Retention.VictimIsUnique` | src/api/jobs.rs:938-942 | only one record can be evicted |
| `Retention.AdmissionKeepsHistory` | src/api/jobs.rs:919-953 | admission stays within the limit, evicts only when full and then only the least terminal record, leaves every other record alone, and refuses a new key only when every record is active |
| `Retention.HeldKeyIsAnsweredByHash` | src/api/jobs.rs:921-935 | a key that is held is answered with its record when the request hashes are equal and as a conflict when they differ |
| `Service.SortJobs` | src/api/jobs.rs:45 | the loop yields the stable order by update time and id |
| `Service.LoadJobs` | src/api/jobs.rs:38-59 | the restored map is the loaded snapshot |
| `Service.LoadedShape` | src/api/jobs.rs:45-58 | whatever a file holds, at most the limit is loaded, each record under its own id |
| `Service.ListJobs` | src/api/jobs.rs:69-70 | visiting the map in any order gives its one ordered listing |
| `Service.FindKey` | src/api/jobs.rs:921-925 | finds a record with the key, or there is none |
| `Service.LeastTerminal` | src/api/jobs.rs:938-942 | finds the record to evict, or every record is active |
| `Service.Service.constructor` | src/api/jobs.rs:38-59 | a service starts with the loaded snapshot of any file, no flags and no locks |
| `Service.Service.SaveJobs` | src/api/jobs.rs:61-78 | the file becomes the snapshot of the map, or stays as it was |
| `Service.Service.EarlyCheck` | src/api/jobs.rs:578-605 | a retained key is answered with its record, or as a conflict when the request differs |
| `Service.Service.AdmitJob` | src/api/jobs.rs:919-954 | recheck, eviction, insertion and save as one section; a held key is answered by its hash; a failed save keeps the changed map |
| `Service.Service.LockFor` | src/api/jobs.rs:957-967 | a connection always gets the same mutex, no two connections share one, and none is ever removed |
| `Service.Service.RaiseFlag` | src/api/jobs.rs:1252-1254 | raises the flag of that job and of no other |
| `Service.Service.MarkCancelled` | src/api/jobs.rs:1256-1262 | an active record becomes cancel-requested, a terminal one is untouched, and the map is saved |
| `Service.FinishJob` | src/api/jobs.rs:1119-1167 | the worker's final assignments give the state that the result, the flag and the possibly accepted bytes call for, the error of the failure, and the progress last reported |
| `Service.Service.RecordOutcome` | src/api/jobs.rs:1168-1170 | the worker's one write to the shared map, for any id |
| `Invariants.StoreAndTasksKept` | src/api/jobs.rs:578-1170 | every step keeps the store and the tasks in order |
| `Execution.AdvanceKeepsAccount` | src/api/jobs.rs:384-496 | every step of a worker keeps its record of possibly accepted bytes ahead of what its device received |
| `Execution.CallsGetThrough` | src/api/jobs.rs:388-411 | without a flag every call of the driver reaches the device, or the recording of an IPP document |
| `Execution.DocumentGetsThrough` | src/api/jobs.rs:471-496 | without a flag the recorded document is sent; with one the worker returns the error of a cancellation and sends nothing |
| `Execution.ProgressIsShown` | src/api/jobs.rs:996-1014 | every report of the driver shows in the worker's record |
| `Execution.WorkKept` | src/api/jobs.rs:957-1170 | every step keeps that account and the mutual exclusion of a connection |
| `History.LogKept` | src/api/jobs.rs:919-1170 | every step keeps the history in order |
| `Runs.InvAlways` | src/api/jobs.rs:578-1170 | the invariant of the executor holds in every reachable state |
| `Runs.AtMostOneExecutionPerKey` | src/api/jobs.rs:919-986 | over every interleaving with failed saves and restarts, a second worker for a key starts only after the earlier record was terminal and evicted |
| `Runs.LiveWorkIsRetained` | src/api/jobs.rs:937-1170 | the map stays within its limit, never shows a running job, and keeps the job of every live worker, not terminal |
| `Runs.RecordsOnlyMoveForward` | src/jobs.rs:78-105 | within one process, while a record is retained it moves from queued to cancel-requested to one terminal state that never changes |
| `Runs.RecordingTouchesOneRecord` | src/api/jobs.rs:1168-1170 | the final record replaces that of its job and no other, and is saved if the map can be |
| `Runs.MarkingTouchesOneRecord` | src/jobs.rs:78-86 | a cancellation marks an active record with its time, leaves a terminal one and every other record, and is saved if the map can be |
| `Runs.CancellationStaysOnRecord` | src/api/jobs.rs:1256-1262 | within one process a cancelled job is cancel-requested until it has ended |
| `Runs.TerminalRecordSurvivesExactlyWhen` | src/api/jobs.rs:38-78 | a terminal record survives a restart unchanged exactly when what the snapshot holds of it reads back as that record, and becomes of unknown outcome when it was last saved as active |
| `Runs.UnsentMeansNoBytes` | src/api/jobs.rs:1119-1155 | a job that ends as cancelled before sending or as failed sent no byte of its document, direct or through IPP |
| `Runs.FinalRecordsAreTruthful` | src/api/jobs.rs:1119-1167 | over every run, a final record is completed exactly when execution succeeded and the flag was down, cancelled exactly when it was up, failed or of unknown outcome exactly when execution failed without or with possibly accepted bytes; its error and its progress are those reported |
| `Runs.CancellationStopsTheDevice` | src/api/jobs.rs:384-496 | once the flag is set, over every continuation, the device receives at most the one call already under way |
| `Runs.ConnectionsAreSerialized` | src/api/jobs.rs:957-986 | two workers of one connection never execute at the same time |
| `Retries.HeldKeyIsAnsweredEarly` | src/api/jobs.rs:578-605 | a submission whose key is retained is answered at once by its hash, and starts nothing |
| `Retries.HeldKeyIsAnsweredLate` | src/api/jobs.rs:921-935 | so is one that passed the first check while another with its key was admitted |
| `Retries.NewKeyGoesOn` | src/api/jobs.rs:578-605 | any other submission goes on as a new job with its own key, hash and connection |
| `Retries.RepeatsAreAnsweredByHash` | src/api/jobs.rs:578-935 | over every run, whenever a repeated key was answered the map held a record of it, with the hash of the submission if that record was the answer and another hash if it was a conflict |
| `Retries.RetryReturnsTheOriginal` | src/api/jobs.rs:578-605 | an exact retry returns the original job, and another request with its key is a conflict, whatever happened since within one process and as long as the record stayed |
| `Retries.RetryAfterRestart` | src/api/jobs.rs:38-59 | after a restart a retry is answered from what was saved of the job |
| `Cancellations.CancellationReachesTheWorker` | src/api/jobs.rs:956-1254 | in every reachable state a cancellation raises the flag of the one registered worker of its job, and of no other |
| `Cancellations.CancelledWorkerStops` | src/api/jobs.rs:384-1155 | from then on at most the call under way reaches the device, and the worker decides on a cancelled record |
| `Limits.ForgettingRestartExecutesAgain` | src/api/jobs.rs:38-64 | without a snapshot path or with an unreadable snapshot, some run executes a key twice with no eviction between |
| `Limits.EvictedKeyExecutesAgain` | src/api/jobs.rs:919-953 | a run of a durable service in which a key executes a second time after the record of the first was evicted |
| `Orphans.FailedSaveOrphansTheJob` | src/api/jobs.rs:952-953 | a failed save at admission leaves a retained active job without a worker, with or without a key |
| `Orphans.AbandoningOrphansTheJob` | src/api/jobs.rs:955-986 | so does a submission that is dropped after the insertion, or a worker that panics |
| `Orphans.FaultlessRunsAreAttended` | src/api/jobs.rs:919-1170 | over all runs with restarts, where every admission of a durable service saves and no live task is abandoned, every active record is the job of a live task |
| `Orphans.AttendedExactlyWhenFaultless` | src/api/jobs.rs:919-1170 | within one process every active record has a live task exactly when neither of the two happened |
| `Orphans.RestartAttends` | src/api/jobs.rs:49-58 | after a restart there is no such job |
| `Orphans.OrphansNeverExecute` | src/api/jobs.rs:919-986 | until a restart such a job is never executed, ended or evicted, and its key, if it has one, starts no other worker |
| `Transports.Cancellable.SubscribeNotifications` | src/api/jobs.rs:388-394 | a subscription passes only while the flag is down |
| `Transports.Cancellable.WriteBytes` | src/api/jobs.rs:395-401 | a write passes only while the flag is down |
| `Transports.Cancellable.WaitResponse` | src/api/jobs.rs:405-411 | a wait passes only while the flag is down |
| `Transports.Cancellable.DelayMonotonic` | src/api/jobs.rs:402-404 | a pause always passes |
| `Transports.Drive` | src/api/jobs.rs:384-441 | for every sequence of calls, and a flag raised between calls or during one, exactly the calls that had passed their check reach the device |
| `CloudStore.CloudJobStore.ReconcileInterrupted` | src/cloud/store.rs:189-199 | every running record becomes of unknown outcome or queued again |
| `CloudStore.ReceivedExactlyWhen` | src/cloud/store.rs:126-175 | which deliveries are refused and why, which find their record, and what a new one is recorded as |
| `CloudStore.ReceiveTwice` | src/cloud/store.rs:126-175 | the same message again finds the first record, and only the same payload and printer do |
| `CloudStore.ReconcileNeverRequeuesWrites` | src/cloud/store.rs:189-199 | running work becomes of unknown outcome exactly when it may have reached the device and is queued again otherwise, and nothing else about any record changes |
| `CloudAgent.AgentInvAlways` | src/cloud/agent.rs:276-433 | both deduplication layers agree in every reachable state |
| `CloudAgent.ExecutorConflictIsUnreachable` | src/cloud/agent.rs:293-369 | over all deliveries, sessions and restarts, the executor never answers a cloud job with its own conflict |
| `CloudAgent.AcknowledgedIsDurable` | src/cloud/agent.rs:316-330 | every acknowledged delivery is in the saved records with its digest, from then on |
| `CloudAgent.EveryMessageIsBacked` | src/cloud/agent.rs:304-433 | over every run each message rests on the records that were in the file when it was sent: receipts on their digest, results on an ended job, progress on an active one |
| `CloudAgent.NewDeliveryIsSubmitted` | src/cloud/agent.rs:293-339 | a sound new delivery is saved, acknowledged and submitted with its digest, and not acknowledged if it cannot be saved |
| `CloudAgent.RepeatedDeliveryOfFinishedJob` | src/cloud/agent.rs:307-339 | a repeated delivery of a job that ended is answered with its result and not submitted |
| `CloudAgent.RejectedDeliveryIsInert` | src/cloud/agent.rs:283-303 | a delivery that is malformed, not for a configured printer or in conflict with its record changes nothing and sends nothing |
| `CloudAgent.SubmissionCarriesTheDelivery` | src/cloud/agent.rs:340-343 | the executor gets a job of the cloud id, with the digest as its hash, on the connection of the printer |
| `CloudAgent.SettlingFollowsTheAnswer` | src/cloud/agent.rs:340-376 | the record becomes the job the executor answers with, or a failure |
| `CloudAgent.FailureIsTold` | src/cloud/agent.rs:345-368 | a refused submission ends as failed with the text of the error, saved before the broker is told |
| `CloudAgent.ReportIsTold` | src/cloud/agent.rs:400-425 | a report copies the executor's record, saves it and sends it, as a result exactly when the job has ended |
| `CloudAgent.RebootStartsFromTheFile` | src/cloud/store.rs:189-199 | a new process starts from the saved records, reconciled, and goes on only if it could save them |
| `CloudAgent.OneWorkerPerCloudJob` | src/api.rs:180-215 | a cloud job starts at most one worker until its terminal record is evicted |
| `Auth.CollectOfList` | src/auth.rs:134-147 | loading the saved list of grants gives the same grants |
| `Auth.AuthStore.Load` | src/auth.rs:134-147 | a loaded store holds what the file holds, and a file that cannot be read gives none |
| `Auth.AuthStore.Reload` | src/auth.rs:158-164 | the whole memory is replaced by the file, or kept when the file cannot be read |
| `Auth.AuthStore.Grants` | src/auth.rs:429-433 | lists every grant once, oldest first |
| `Auth.AuthStore.Persist` | src/auth.rs:434-454 | after a successful write, loading gives the memory back; a failed write leaves the file |
| `Auth.AuthStore.Exchange` | src/auth.rs:209-238 | a grant is issued exactly when the secret of the open pairing is presented in time for its scope from a valid origin and both writes succeed, and it is the grant that was asked for |
| `Auth.AuthStore.AuthenticateScoped` | src/auth.rs:282-306 | finds a grant that the token proves, or there is none |
| `Auth.AuthStore.PrepareWifiApproval` | src/auth.rs:313-342 | an approval is prepared exactly for a live administrator grant of the origin with two valid bindings, and carries what was asked |
| `Auth.AuthStore.ApproveWifiApproval` | src/auth.rs:353-362 | exactly a pending and unexpired request of that id is approved, and nothing else of it changes |
| `Auth.AuthStore.ConsumeWifiApproval` | src/auth.rs:368-396 | exactly an approved, unexpired and unused request is used, with every binding the same and its grant alive |
| `Auth.AuthStore.Revoke` | src/auth.rs:405-411 | the grant is marked as revoked at that time, and nothing else changes |
| `Auth.AuthStore.Rotate` | src/auth.rs:415-428 | the token, the times and the revocation of the grant are replaced, its origin and scope stay |
| `Grants.GrantsExactlyWhen` | src/auth.rs:209-238 | exactly when an exchange makes a grant, and what becomes of the pairing in every other case |
| `Grants.RightSecretYieldsAGrant` | src/auth.rs:174-275 | a pairing begun by anyone and presented in time yields a grant that its token proves for as long as it was asked and its scope may last |
| `Grants.RevocationTakesEffect` | src/auth.rs:405-411 | a saved revocation is in force on file at once and in the service at once or with its next reload |
| `Grants.RevokedStaysRevoked` | src/auth.rs:282-411 | over every run a revoked grant is proved by no token and used for no approval until it is rotated |
| `Grants.RotationReplacesTheToken` | src/auth.rs:413-428 | the old token proves nothing any more, and the new one proves this grant and no other, within its origin, scope and time |
| `AuthRuns.InvAlways` | src/auth.rs:134-454 | the invariants of pairings and approvals hold in every reachable state |
| `AuthRuns.PairingsYieldOneGrant` | src/auth.rs:174-275 | over every run with failed writes, reloads and restarts, a grant is made only for a begun pairing, to someone who presents its secret in time, of its scope and for the origin and time asked; a pairing yields at most one, and no pairing is on disk any more when it is made |
| `AuthRuns.ApprovalsAreJustified` | src/auth.rs:313-404 | every successful use follows a matching prepare within 120 seconds and an approval after it, every later prepare was unsaved and forgotten by a reload before the use, and the very grant it was prepared for is, in the memory of the service, an unexpired and unrevoked administrator grant of the same origin |
| `AuthRuns.UseAfterReloadChecksTheFile` | src/api.rs:1492-1515 | a use right after a reload, as the service makes it, checks the grant and the approval on file |
| `AuthRuns.ApprovalsAreUsedOnce` | src/auth.rs:368-396 | an approval is used successfully at most once, across restarts and failed writes |
| `AuthRuns.UnsavedPrepareIsForgotten` | src/auth.rs:339-340 | a run in which a later prepare whose write failed is forgotten by a reload, and the earlier approval is then used |
| `AuthRuns.GrantsAreShortLived` | src/auth.rs:252-275 | over every run no grant outlives the longest life of its scope by more than the gap between the clock readings of a rotation |
| `Strings.DigitsRoundTrip` | src/printers.rs:263-268 | printed digits denote the number they were printed from |
| `Strings.ReadBackExactlyUpTo` | src/device.rs:704-706 | a printed number is read back, with or without a plus sign, exactly up to the largest value of the type |
| `Strings.OtherTextIsNoNumber` | src/device.rs:704-706 | a text that is empty or holds another character is no number |
| `Ipp.I32RoundTrip` | src/device.rs:333-335 | a signed 32-bit integer survives its four big-endian bytes |
| `Ipp.UnderstoodExactlyWhen` | src/device.rs:329-339 | which tags mean a signed number and which a text, and that every other value is passed over |
| `Ipp.SameMapExactlyWhen` | src/device.rs:297-346 | two lists of elements have the same attribute map exactly when they give every name the same values |
| `Ipp.ParseIpp` | src/device.rs:297-346 | for every byte string the loop stays in bounds, ends, and lists exactly the names with a value, each with all its values in order |
| `Ipp.IppAttr` | src/device.rs:347-354 | the wire form of one attribute |
| `Ipp.OpenRequest` | src/device.rs:356-359 | a request opens with the operation group and its three attributes |
| `Ipp.IppRequest` | src/device.rs:355-384 | the encoding of the query, with one attribute of five values |
| `Ipp.PrintJobBody` | src/device.rs:674-693 | the encoding of a Print-Job request with the document after the end tag |
| `Ipp.EntryRoundTrip` | src/device.rs:310-354 | one printed attribute reads back as itself |
| `Ipp.RoundTrip` | src/device.rs:297-354 | parsing an encoded list of elements gives it back, whatever follows the end tag |
| `Ipp.EncodedListIsGrouped` | src/device.rs:297-354 | parsing an encoded list gives exactly its values grouped by name, additional values included |
| `Ipp.ScanOfPrefix` | src/device.rs:301-328 | truncated data yields a prefix of the elements, and nothing after the end tag matters |
| `Ipp.EndsExactlyWhenNothingMatters` | src/device.rs:301-328 | an end tag is reached exactly when no bytes that follow can add an element |
| `Ipp.LongValueWaits` | src/device.rs:301-328 | without an end tag, an element cut off before a long value adds nothing until the value is there |
| `Ipp.OneValueEach` | src/device.rs:318-343 | a value under a name of its own is what that name means |
| `Ipp.AdditionalValues` | src/device.rs:318-343 | values without a name join the values of the name before them, in order |
| `Ipp.PrintJobReadBack` | src/device.rs:674-693 | the attributes of a Print-Job request do not depend on the document |
| `Http.FindBlank` | src/device.rs:566-568 | the first blank line, or there is none |
| `Http.CompleteIsMonotone` | src/device.rs:696-711 | a response that is complete stays complete, and its declared end never moves |
| `Http.ReadResponse` | src/device.rs:538-565 | the loop stops at the first complete response, the end of the stream, the size limit or an error, and a timeout is always an error |
| `Http.IppQuery` | src/device.rs:538-577 | the attributes of the body of a successful response, or the matching error; which responses those are is stated in `Replies` |
| `Http.ReadsOn` | src/device.rs:540-554 | the loop reads every byte of a stream that is never complete |
| `Http.RunsOver` | src/device.rs:545-550 | a stream that passes the limit before it is complete is refused, however it is cut |
| `Http.StopsWhenComplete` | src/device.rs:540-554 | what the loop keeps of a stream with a complete response is a prefix that holds it and is less than one read longer |
| `Http.AnswerIsDetermined` | src/device.rs:538-577 | with or without a content length, closed early, timed out, failed or over the limit, the answer to steady bytes is a function of the bytes sent and of how the stream ended |
| `Http.ChunkingDoesNotMatter` | src/device.rs:538-577 | any two ways of delivering the same steady bytes give the same result, error or attribute map |
| `Http.OneAnswerExactlyWhenSteady` | src/device.rs:538-577 | every two ways of delivering some bytes have the same answer exactly when the bytes are steady |
| `Http.UnsteadyHasTwoAnswers` | src/device.rs:540-577 | bytes that are not steady have two deliveries, of nothing else, with two answers |
| `Http.UnambiguousIsSteady` | src/device.rs:540-577 | bytes are steady when nothing follows the response or its body has an end tag, and a read past its end stays below the limit |
| `Http.UnfinishedHasTwoAnswers` | src/device.rs:538-577 | a concrete response without an end tag, followed by one attribute, that is answered in two ways |
| `Replies.NameInAnyCase` | src/device.rs:704 | the field name is recognised in any case, and no other name is |
| `Replies.LengthLineIsRead` | src/device.rs:702-707 | a length line is read with any white space around its number |
| `Replies.OtherLineIsSkipped` | src/device.rs:702-707 | another field and a line without a colon announce no length |
| `Replies.MalformedLengthIsSkipped` | src/device.rs:702-707 | nor does a value with anything but digits, a sign and white space |
| `Replies.HeadersDeclareTheEnd` | src/device.rs:696-711 | a response ends as many bytes after its blank line as its first length line says |
| `Replies.StatusOkExactlyWhen` | src/device.rs:573-575 | a reply succeeds exactly when its status is 200 under HTTP 1.0 or 1.1 |
| `Replies.ReplyIsUnderstood` | src/device.rs:538-577 | a reply of at most one mebibyte with status 200 gives the attributes its body encodes, in whatever case and order its headers are sent and however it is cut, without waiting for the connection to close; another status and a longer reply give their errors |
| `Replies.HeadlessIsRefused` | src/device.rs:555-572 | without a blank line a closed, silent or failed connection gives its own error |
| `Endpoint.ParsedIsCanonical` | src/printers.rs:157-244 | the parser yields only transports that an address describes |
| `Endpoint.HexRoundTrip` | src/printers.rs:214-268 | a printed USB number reads back as itself |
| `Endpoint.RfcommRoundTrip` | src/printers.rs:185-195 | an address with any colons and a channel reads back as itself |
| `Endpoint.UsbRoundTrip` | src/printers.rs:207-265 | a USB endpoint with or without an IN number reads back as itself |
| `Endpoint.AnyHexFormIsRead` | src/printers.rs:214-222 | a USB number is read in capitals and with a prefix too |
| `Endpoint.PrintedInFull` | src/printers.rs:257-266 | a USB number is printed in lower case with four or two digits |
| `Endpoint.AddressWithoutChannel` | src/printers.rs:185-195 | an address whose last part is no channel is one address on the first channel |
| `Endpoint.RoundTripExactly` | src/printers.rs:157-271 | printing and parsing gives a transport back exactly when it is canonical |
| `Endpoint.ParseIsStable` | src/printers.rs:157-271 | for every string the parser accepts, printing and parsing again gives the same transport |
| `Rasters.ScaleToWidth` | src/raster.rs:121-145 | the errors, the size, and every pixel as the one source pixel whose column and row span its place on the common scale |
| `Rasters.SampleInside` | src/raster.rs:134-137 | the coordinate that spans one of the scaled image lies in the source |
| `Rasters.ScalingKeepsProportions` | src/raster.rs:128-130 | the proportions are kept to within half a source row unless the height is clamped or cut |
| `Rasters.SamplingIsMonotone` | src/raster.rs:134-135 | sampling keeps the order of rows and columns |
| `Rasters.ScalingToTheSameWidth` | src/raster.rs:121-145 | scaling to the same width is the identity |
| `Rasters.WidthLimitedAgrees` | src/raster.rs:156-172 | for a width-limited image the predicted height is the computed one |
| `Rasters.HeightLimitedAgrees` | src/raster.rs:164-172 | for a height-limited image they agree exactly when the rounded width leaves less than a row |
| `Rasters.WideImagesAgree` | src/raster.rs:156-172 | an image at least as wide as tall always agrees |
| `Rasters.TallImageMissesTheBox` | src/raster.rs:156-175 | 106 by 300 pixels into 696 by 271 are scaled to 272 rows |
| `Rasters.FittedWithAssertions` | src/raster.rs:149-175 | exactly when a build with debug assertions, and so with overflow checks, fits an image |
| `Rasters.FittedWithoutAssertions` | src/raster.rs:149-175 | exactly when a build without them but with overflow checks fits an image, which may then be shorter than the box |
| `Rasters.FittedSizeKeepsProportions` | src/raster.rs:156-171 | one side of a fitted image is that of the box, and the other keeps the proportions to within half a source pixel or is one pixel |
| `Rasters.ShortImageFitsWithoutAssertions` | src/raster.rs:164-175 | 1 by 3 pixels into 4 by 7 are fitted as 2 by 6 by the one and refused by the other |
| `Rasters.WrappedAreaStops` | src/raster.rs:131-137 | a scaled area of 2^32 pixels or more stops a build without overflow checks too |
| `Rasters.WrappedMarginStops` | src/raster.rs:174-180 | a negative margin puts the first row outside the box in such a build, unless the box and the rows above it reach 2^31 pixels |
| `Rasters.FitToBox` | src/raster.rs:149-187 | the errors, and every pixel of the box as that of the image standing in the middle or white |
| `Rasters.OneMargin` | src/raster.rs:174-175 | exactly one margin leaves as much, or one pixel more, on the other side |
| `Tiles.CutTiles` | src/raster.rs:293-318 | the row-major list of all tiles, or the error for an empty tile size |
| `Tiles.TileShows` | src/raster.rs:303-314 | a tile shows the pixels of its place |
| `Tiles.OneTileEach` | src/raster.rs:301-302 | every pixel belongs to exactly one tile |
| `Tiles.PastingRebuilds` | src/raster.rs:293-318 | any image holding all tiles at their places is the original |
| `Tiles.ImageIsPasted` | src/raster.rs:293-318 | the original holds all its tiles at their places |
| `Sheet.AcceptedExactlyWhenItFits` | src/raster.rs:224-257 | the 64-bit test accepts a grid exactly when the true lengths fit the paper |
| `Sheet.LabelsLieOnThePaper` | src/raster.rs:250-272 | on an accepted sheet every label lies inside the margins and no two overlap |
| `Batch.ExpandAt` | src/api/jobs.rs:876-879 | the k-th raster printed is that of document k divided by the copies |
| `Batch.PositionIsOnTheLabel` | src/api/jobs.rs:1181-1195 | the reported document and copy are those of the label being printed |
| `Batch.StartsOnTheFirstLabel` | src/api/jobs.rs:1187-1191 | before the first page is marked the first label is reported |
| `Batch.NeverGoesBackExactlyWhen` | src/api/jobs.rs:1190-1194 | the reported position never goes back exactly when no more pages are marked than labels, or every document is printed once |
| `Batch.ThreePagesForTwoCopies` | src/api/jobs.rs:1190-1194 | a concrete plan with more markers than labels for which it goes back |
| `Batch.CutsWhereAsked` | src/api/jobs.rs:364-378 | chained cutting after each cuts at document boundaries only, unchained after every label, after the job once at the end |
| `Batch.BoundariesAreBetweenDocuments` | src/api/jobs.rs:733-747 | a chained cut falls where the next label belongs to another document |
| `Batch.PlainCutting` | src/api/jobs.rs:305-334 | where there are no options a cut follows every label, options without continuous media are refused, and so is whatever the printer objects to |
| `Batch.PossibleExactlyWhen` | src/api/jobs.rs:316-363 | the printer can do what is asked exactly when the length, the cutting, the chaining and both feeds are within its limits |
| `Batch.ObjectionsInOrder` | src/api/jobs.rs:324-363 | which of several objections is reported |
| `Batch.RefusedForCopiesExactlyWhen` | src/api/jobs.rs:726-753 | which otherwise acceptable jobs are refused for their number of labels |

## Left out

- HTTP routing, CORS, headers other than the content length, JSON, TLS, command-line parsing, tracing and the event channel: plumbing around the modelled operations. Requests are records that have been parsed.
- Rendering, planning and printing in the SDK, and all device transports: the driver is arbitrary calls, a plan is a list of page markers.
- `canonical_document`, `preview_transform`, the La Poste coordinates and the conversion of millimetres to micrometres: they rest on floating-point rounding. In `Batch` a document length is a real quotient and a feed that is not finite has no value.
- A job record has only the fields that execution, deduplication and retention read; it is a value because every holder owns a clone. Fields that describe the batch are in `Batch`.
- An idempotency key is a pair or a cloud id; that its string form is injective rests on origins carrying an http scheme.
- The history limit does not change during a run of the machine; `Retention.LoadOfSnapshot` covers a change across a restart.
- CloudAgent.OneWorkerPerCloudJob: does not claim one execution across a crash of the agent, because the durable cloud record stays queued during a run.
- CloudAgent.AgentInvAlways: does not claim that a terminal result is always sent, because reports are skipped when two updates share a millisecond; reporting is a move that may or may not happen.
- Runs.CancellationStopsTheDevice: says nothing of a document already being sent through IPP, which is one request that is not interrupted.
- A cancellation need not be honoured: a request that comes before the flag is registered marks the record only.
- Auth.AuthStore.Rotate: a revoked grant that is rotated is usable again, as in the code; the life of the new grant is bounded only up to the gap between the two clock readings.
- AuthRuns.ApprovalsAreJustified: the grant it names is the one in memory; that it is also the one on file is stated for a use right after a reload (`AuthRuns.UseAfterReloadChecksTheFile`), which is when the service makes it. Command-line processes do not overlap with each other or with an operation of the service.
- Grants.RotationReplacesTheToken: the tokens in the store differ from each other and from the new one, which holds for random ones.
- Ipp.RoundTrip: lengths are below 65536; longer ones are cut to sixteen bits by the printer, which `Ipp.IppAttr` states.
- Http.ChunkingDoesNotMatter: holds for steady bytes, and for no others (`Http.OneAnswerExactlyWhenSteady`): the bytes that the last read brings in after a response without an end tag can complete an element, and can pass the limit.
- The HTTPS client of the IPP endpoint, the media size parser and the other status parsers of src/device.rs: library calls or easy parsers.
- Rasters.FitToBox: arithmetic overflow and a failed debug assertion are errors. In a build without overflow checks that is also what happens for a scaled area (`Rasters.WrappedAreaStops`) and for a negative margin, as long as the box and the rows above it stay within 2^31 pixels (`Rasters.WrappedMarginStops`); a box of 2^32 pixels or more wraps there, and the wrapped vector is not modelled.
- Rasters.FittedWithoutAssertions: counts a box of 2^32 pixels or more as refused, which holds with overflow checks; without them the length of its vector wraps, and that vector is not modelled.
- PNG and PDF output, and the store of named printers around the endpoint parser.
