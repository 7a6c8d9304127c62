# Letterbox: mailbox sync, IDLE pool, webhook queue and reply threading in Dafny

This project models four parts of the Letterbox mail server that keep state over unbounded
runs, or that are hand-written scanners, and proves what they guarantee.

`dafny verify dfyconfig.toml` checks everything.

## How the model is built

Concurrent code is modelled twice. A *machine* (a datatype of states, a `Step` function and
`Run` over event sequences) lets every lock section, channel operation and request to an
outside system interleave; the theorems about runs are proved there. A *class* with the
source's fields holds the code itself, and each of its methods is proved to perform a run of
the machine (a ghost `trace`) and, where that says more, to compute a specification function.
The rest of the world (IMAP, PostgreSQL, the object store, HTTP receivers) is a parameter:
every answer a call may get, including lost writes, cancellation and process death.

| modules | part of the program |
|---|---|
| `MailboxSync`, `SyncGuarantees`, `Coordinator` | the UID cursor protocol of `handleEvent`, run by two event loops beside arrivals, expunges, API ingests, account removal and restarts |
| `Ingest`, `IngestGuarantees`, `IngestRaces` | the object-store/database saga of `IngestEmail`, alone and with any number of concurrent calls |
| `Backoff`, `IdlePool`, `PoolGuarantees`, `PoolObjects` | workers, stop channels, the shared event channel and reconnection backoff |
| `Poller` | polling of mailboxes without IDLE |
| `WebhookQueue`, `WebhookGuarantees`, `WebhookWorker` | the persisted queue, its one worker and the retry schedule |
| `MessageIds`, `References`, `Threading` | the References printer, the header scanner and whole chains of replies |
| `Quoting` | quoting and HTML escaping of an original message |
| `Common` | `Option`, `Max`, `Min` |

Assumptions that are the environment's: UIDs of a mailbox strictly ascend and UIDVALIDITY is
constant (section 2.3.1.1 of RFC 3501); `n:*` may return the last UID below n (section 6.4.8
of RFC 3501); account ids are UUID strings, so they hold neither ':' nor '/'; text is ASCII.

## Where the code and its comments differ

The model follows the code. Each point is a theorem.

- `internal/sync/coordinator.go:352` says the cursor does not advance on a failure. It passes a
  failed UID whenever a later UID of the same batch succeeds
  (`SyncGuarantees.LaterSuccessStrandsAFailure`); `SyncGuarantees.AdvanceStrandsExactly` gives
  the condition.
- Not every ingested email is announced to webhooks: not one that the API ingests first
  (`SyncGuarantees.ApiStoredIsNeverAnnounced`), nor one whose attachment rows failed
  (`SyncGuarantees.MetadataFailureIsNeverAnnounced`), nor one stored just before a restart
  (`SyncGuarantees.RestartIsNeverMadeUpFor`); `SyncGuarantees.AnnouncedExactly` and
  `SyncGuarantees.SilencedExactly` give the conditions.
- A failure among the attachment rows is permanent: the email stays, and later calls return
  "already exists" (`IngestGuarantees.MetadataFailureIsPermanent`); `IngestGuarantees.RetryExactly`
  says which errors can be retried.
- Two attachments with the same base name share one object, so the first loses its content
  (`IngestGuarantees.SuccessIsComplete`); the object key also leaves out the folder
  (`Ingest.AttachmentKeyInjective`).
- Two overlapping ingests of one message: the loser of the insert deletes the winner's objects
  (`IngestRaces.LosingRacerDeletesWinnersObject`). Two folders with one UID do not even need to
  overlap (`IngestRaces.SecondFolderDeletesFirstOnesObject`, `IngestGuarantees.SameUidOverwrites`);
  `IngestRaces.BeginBreaksExactly` gives the condition.
- A worker whose account was removed may send on the closed events channel
  (`PoolGuarantees.OverlapCanPanic`); `PoolGuarantees.PanicExactly` gives the condition.
- In `forwardEvents`, the branch for an unexpectedly closed connection is never taken
  (`PoolGuarantees.LostConnectionIsNeverSeen`), `closeConnection` at the loop head has nothing to
  close (`PoolGuarantees.SlotFollowsWorker`), and the return for a closed pool abandons the
  connection (`PoolGuarantees.CloseCanLeak`; `PoolGuarantees.LeakExactly` gives the condition).
- `internal/sync/pool.go:339-353` logs the backoff before doubling as the time to the next try,
  but the worker waits for the doubled one (`PoolGuarantees.WaitIsClosedForm`).
- `internal/webhook/worker.go:381` calls the four-hour wait the last retry. It is used exactly
  when six or more tries are configured; the default is five
  (`WebhookGuarantees.FourHoursExactly`).
- `extractReferences` looks for the header name anywhere in the message
  (`References.EarlierMentionHidesTheHeader`; `References.HeaderIsReadExactly` gives the
  condition) and, when lines end in a bare LF, reads past a
  blank line into a body that starts with white space (`References.BareBlankLine`).

## Model

| member | source | states |
|---|---|---|
| `MailboxSync.CursorKeyInjective` | internal/sync/coordinator.go:283 | different (account, folder) pairs never share a cursor key, even when folder names contain ':' |
| `MailboxSync.PrefixIsExact` | internal/sync/coordinator.go:151-162 | RemoveAccount's prefix test holds of a cursor key if and only if the key is that account's |
| `MailboxSync.SafeStep` | internal/sync/coordinator.go:247-385 | every step of either loop, of the API, of arrivals, removal or restart keeps: all mail at or below a cursor is stored, knowingly passed over, or its account is deleted; and each batch in progress has every UID it processed without a failure stored and accounts for all mail above the cursor it read |
| `MailboxSync.SafeRun` | internal/sync/coordinator.go:211-385 | that invariant holds over whole runs of both loops |
| `SyncGuarantees.OnlySkippedIsStranded` | internal/sync/coordinator.go:327-385 | in every interleaving, mail at or below its cursor that is not stored is mail whose ingestion failed in a batch with a later success |
| `SyncGuarantees.NoStrandedMail` | internal/sync/coordinator.go:327-385 | no mail is ever stranded in runs where failures come last in their batches |
| `SyncGuarantees.AdvanceStrandsExactly` | internal/sync/coordinator.go:352-385 | a cursor update, at any point of any run, strands a message if and only if it is on the server and not stored, lies above the present cursor and up to the last success, and failed in the batch or lay below the cursor that was read |
| `SyncGuarantees.OnlyAdvanceStrands` | internal/sync/coordinator.go:211-385 | no other step of either loop or of the rest of the system strands a message |
| `SyncGuarantees.LaterSuccessStrandsAFailure` | internal/sync/coordinator.go:341-385 | the run with batch [5, 6] in which 5 fails, 6 succeeds and the cursor goes to 6 |
| `SyncGuarantees.CursorStep` | internal/sync/coordinator.go:377-385 | no single step but a restart or the removal of its own account lowers a cursor |
| `SyncGuarantees.CursorNeverFalls` | internal/sync/coordinator.go:377-385 | the same over whole runs, with two loops writing the same cursors |
| `SyncGuarantees.RemovalIsExact` | internal/sync/coordinator.go:149-163 | RemoveAccount clears exactly its own account's cursors and leaves every other cursor's value |
| `SyncGuarantees.HandledEventCatchesUp` | internal/sync/coordinator.go:289-385 | a handler at the end of its batch has stored everything its mailbox held at the search above the cursor it read, or in its batch, except its own failures; without a cursor, as after a restart, it has stored the whole mailbox but these |
| `SyncGuarantees.EventCatchesUp` | internal/sync/coordinator.go:289-385 | whatever was dropped before, from any reachable state and whatever else happens meanwhile, one event handled without a failure stores every message the server held at its search, unless that lay below the cursor and was passed over before |
| `SyncGuarantees.SearchIsComplete` | internal/imap/client.go:142-206 | a search from the cursor misses nothing that is not settled already, for UID ranges that wrap at `n:*` |
| `SyncGuarantees.OnceStep` | internal/sync/coordinator.go:341-375 | each step keeps: every announced mail is stored, at most one loop is about to announce a given mail, and no queue row is repeated |
| `SyncGuarantees.AtMostOnce` | internal/ingest/ingest.go:61-151 | over any run with both loops, API ingests and restarts, the event handler fires at most once per mail and the queue holds at most one row per webhook and mail |
| `SyncGuarantees.ApiStoredIsNeverAnnounced` | internal/sync/coordinator.go:341-375 | mail stored by the API is announced neither before nor in any continuation, and has no queue row |
| `SyncGuarantees.AnnouncedExactly` | internal/sync/coordinator.go:341-375 | in every reachable state, a stored mail is announced in some continuation if and only if it has been, or a loop has stored it and its IngestEmail has not returned yet |
| `SyncGuarantees.SilencedExactly` | internal/ingest/ingest.go:135-174 | a step leaves a stored mail without announcement for good if and only if it is the API's store, a failure among the attachment rows, or a process death between the insert and the return |
| `SyncGuarantees.MetadataFailureIsNeverAnnounced` | internal/ingest/ingest.go:153-174 | the run after which a mail whose attachment rows failed is never announced |
| `SyncGuarantees.RestartIsNeverMadeUpFor` | internal/ingest/ingest.go:135-151 | the run after which a mail stored just before a restart is never announced |
| `SyncGuarantees.LoopsCanStop` | internal/sync/coordinator.go:202-203 | from every reachable state both loops can come to their ends, so Close's wait can end |
| `Coordinator.ReplayChangesNothing` | internal/sync/coordinator.go:330-350 | handling an event whose UIDs are all stored leaves emails, queue and announcements as they are, whatever the calls answer; without failing calls it ends at the batch's last UID |
| `Coordinator.Coordinator.constructor` | internal/sync/coordinator.go:56-78 | starts in the machine's initial state |
| `Coordinator.Coordinator.RemoveAccount` | internal/sync/coordinator.go:140-175 | the deletion loop removes exactly the keys with the account's prefix; an error only when both pool and poller fail, and then the pool's; nothing changes when closed |
| `Coordinator.Coordinator.QueueForEmail` | internal/webhook/producer.go:111-175 | appends one row per webhook whose insert succeeds, in order; its three errors occur exactly when the lookup fails, the payload fails for some webhook, or every insert fails; performs the machine's queue steps |
| `Coordinator.Coordinator.QueueForAll` | internal/webhook/producer.go:140-168 | the loop over the webhooks: rows in order, failures skipped, successes counted |
| `Coordinator.Coordinator.IngestEmail` | internal/ingest/ingest.go:49-179 | for each result, exactly when it occurs and what it did to the emails table and the loop's work |
| `Coordinator.Coordinator.HandleUID` | internal/sync/coordinator.go:341-375 | one UID: stored, skipped, failed or announced as `HandleOne` says, and whether it counts as a success |
| `Coordinator.Coordinator.ReadLastUID` | internal/sync/coordinator.go:283-287 | reads the cursor of exactly this mailbox, 0 when missing |
| `Coordinator.Coordinator.ProcessUIDs` | internal/sync/coordinator.go:327-375 | the loop handles UIDs in order up to shutdown and returns the last success |
| `Coordinator.Coordinator.RaiseLastUID` | internal/sync/coordinator.go:377-385 | the cursor is raised, never lowered, and no other cursor changes |
| `Coordinator.Coordinator.HandleEvent` | internal/sync/coordinator.go:247-386 | the whole handler performs a run of the machine; the emails, the event handler's calls, the queue rows (one for each newly stored mail and webhook whose insert succeeds, in order, and no other) and the cursor are stated in terms of the answers; an early return changes nothing |
| `Coordinator.TablesAfter` | internal/sync/coordinator.go:327-375 | what the handler's specification means for emails, calls and queue rows, UID by UID and webhook by webhook |
| `Coordinator.CursorAfter` | internal/sync/coordinator.go:341-385 | what it means for the cursor: raised to the last success, when the whole batch was handled |
| `Coordinator.Coordinator.Close` | internal/sync/coordinator.go:178-200 | a second call reports that the coordinator is already closed; the first cancels the context and joins exactly the errors of pool and poller |
| `Ingest.AttachmentKeyInjective` | internal/storage/s3.go:71-76 | two object keys are equal if and only if account, UID and base name are |
| `Ingest.DecimalInjective` | internal/storage/s3.go:71-76 | different UIDs print differently |
| `Ingest.DecimalIsDecimal` | internal/storage/s3.go:71-76 | a UID is printed in decimal notation without leading zeros |
| `Ingest.BaseIsLastComponent` | internal/storage/s3.go:72-73 | the sanitized file name is the last component of the path, without trailing slashes; "." and "/" when there is none |
| `Ingest.Ingester.UploadAttachments` | internal/ingest/ingest.go:94-115 | uploads in order; the first failure deletes what was uploaded before it |
| `Ingest.Ingester.Cleanup` | internal/ingest/ingest.go:103-111 | tries every key; failed deletes leave their objects |
| `Ingest.Ingester.StoreMetadata` | internal/ingest/ingest.go:153-174 | exactly the rows before the first failing insert are written, in order, and they stay |
| `Ingest.Ingester.IngestEmail` | internal/ingest/ingest.go:49-179 | both stores and the result after any mix of answers are those of the saga specification |
| `IngestGuarantees.CompensationRestores` | internal/ingest/ingest.go:94-151 | with fresh keys and working deletes, every call that does not insert its email leaves the object store and the tables as at entry |
| `IngestGuarantees.CompensationExactly` | internal/ingest/ingest.go:94-151 | with fresh keys, a roll-back restores the object store if and only if it deletes each object that its PUTs, also failed ones, have stored |
| `IngestGuarantees.IntegrityExactly` | internal/ingest/ingest.go:94-174 | a call keeps every attachment row's object in existence if and only if it does not both have to roll back (an upload or the insert fails, or the email was inserted meanwhile) and delete a key that a row pointed at |
| `IngestGuarantees.EndOfCall` | internal/ingest/ingest.go:49-179 | each of the seven results if and only if a condition on the call's inputs |
| `IngestGuarantees.ReadBackExactly` | internal/ingest/ingest.go:94-115 | after all uploads each attachment's key leads to its own content if and only if attachments with equal base names have equal content |
| `IngestGuarantees.SuccessIsComplete` | internal/ingest/ingest.go:94-179 | a call in which nothing fails succeeds and stores the email and one row per attachment in order, each readable under the exact condition above |
| `IngestGuarantees.ContentExactly` | internal/ingest/ingest.go:94-151 | any call, also one that rolls back, leaves the content behind all earlier rows as it was if and only if it deletes none of their keys and its last PUT under any of them has the same content |
| `IngestGuarantees.SameUidOverwrites` | internal/storage/s3.go:71-76 | the same UID in two folders, both stored without any failure: the first message's row leads to the second one's content |
| `IngestGuarantees.MetadataFailureIsPermanent` | internal/ingest/ingest.go:61-70 | when a call inserts its email and some attachment row then fails, rows are missing and no later call adds anything |
| `IngestGuarantees.StoredExactly` | internal/ingest/ingest.go:61-151 | the email is stored after a call if and only if it was before, or the uploads succeed and it is inserted then, by this call or one that overtakes it |
| `IngestGuarantees.RetryExactly` | internal/ingest/ingest.go:49-179 | a later call without any fault completes the ingestion if and only if the email was not stored before the first call and not inserted during it |
| `IngestRaces.CalmStep` | internal/ingest/ingest.go:94-174 | each step of any of the concurrent calls keeps: no two calls have to do with the same key, none may delete a stored row's key, rows point at objects, and a call's uploads are in the store while it needs them |
| `IngestRaces.CalmBegin` | internal/ingest/ingest.go:49-94 | a new call keeps that too when none of its keys is in use |
| `IngestRaces.RowsNeverDangle` | internal/ingest/ingest.go:94-174 | over every interleaving of any number of calls that may fail or die, every attachment row's object exists, if no call begins while one of its keys belongs to a stored row or an unfinished call |
| `IngestRaces.ExclusiveRunsAvoid` | internal/storage/s3.go:71-76 | runs in which calls for one account and UID do not overlap, and no email shares both with one of another folder, meet that premise |
| `IngestRaces.BeginBreaksExactly` | internal/ingest/ingest.go:94-174 | the premise is exact: after any run that met it, a new call can be followed, without any further call, by a dangling row if and only if one of its keys is a stored row's or one that an unfinished call may still upload, delete or write a row for |
| `IngestRaces.LosingRacerDeletesWinnersObject` | internal/ingest/ingest.go:135-151 | the run of two overlapping calls after which a row points at nothing |
| `IngestRaces.SecondFolderDeletesFirstOnesObject` | internal/storage/s3.go:71-76 | the run of two calls one after the other, for one UID in two folders, after which the first message's row points at nothing |
| `IngestRaces.SoloCall` | internal/ingest/ingest.go:94-179 | a call left alone performs a run of the concurrent machine with the saga's effect on the stores |
| `Backoff.NextIsClosedForm` | internal/sync/pool.go:336-346 | doubling with the cap keeps the backoff at min(2^n, 300) seconds |
| `Backoff.TotalWaitClosedForm` | internal/sync/pool.go:252-262 | the waits of n straight failures add up to 2^(n+1) - 2, or 510 + 300(n - 8) beyond eight |
| `IdlePool.InvStep` | internal/sync/pool.go:76-371 | every step keeps: each entry is owned by the map, by one RemoveAccount or by Close; slots, connections and backoff agree with each worker's position |
| `IdlePool.InvRun` | internal/sync/pool.go:76-371 | the same over whole runs |
| `PoolGuarantees.StopChannelsCloseOnce` | internal/sync/pool.go:114-139 | over every interleaving of Add, Remove, Close and worker steps no stop channel is closed twice |
| `PoolGuarantees.CloseIsSafe` | internal/sync/pool.go:185-219 | if no RemoveAccount overlaps Close, the events channel closes only after every worker has exited and no send ever meets it closed |
| `PoolGuarantees.PanicExactly` | internal/sync/pool.go:312-329 | after Close, some continuation sends on the closed channel if and only if at that moment a worker whose account has left the map is between its closed-check and its send |
| `PoolGuarantees.OverlapCanPanic` | internal/sync/pool.go:114-139 | the run in which RemoveAccount overlaps Close and the removed worker sends too late |
| `PoolGuarantees.CloseCanReturn` | internal/sync/pool.go:185-219 | from every reachable state of a closed pool some continuation lets Close return, with the events channel closed |
| `PoolGuarantees.SlotFollowsWorker` | internal/sync/pool.go:264-280 | an entry's connection is set exactly while its worker forwards or is about to clear it, and is nil at the loop head |
| `PoolGuarantees.ConnectionsAreClosed` | internal/sync/pool.go:285-332 | opened connections are exactly those closed, abandoned or still open, and at most one per worker is abandoned, only in a closed pool |
| `PoolGuarantees.OnlyTheClosedCheckLeaks` | internal/sync/pool.go:312-318 | a step abandons a connection if and only if it is the closed-check in a closed pool |
| `PoolGuarantees.LeakExactly` | internal/sync/pool.go:223-332 | after Close, some continuation abandons a worker's connection if and only if at that moment the worker is connecting, connected or forwarding |
| `PoolGuarantees.CloseCanLeak` | internal/sync/pool.go:312-318 | the run in which Close comes between a receive and its closed-check, and the worker exits with its connection open |
| `PoolGuarantees.LostConnectionIsNeverSeen` | internal/sync/pool.go:302-310 | the branch for an unexpectedly closed connection is unreachable |
| `PoolGuarantees.BackoffIsClosedForm` | internal/sync/pool.go:336-346 | in every reachable state the backoff is min(2^retryCount, 300) seconds |
| `PoolGuarantees.WaitIsClosedForm` | internal/sync/pool.go:252-268 | before the next try after n straight failures the worker has waited exactly the closed form, counted from its last success |
| `PoolObjects.IdleConnection.Offer` | internal/sync/idle.go:286-305 | nothing is put into the channel after Close or beyond its capacity; otherwise exactly one event is appended |
| `PoolObjects.IdleConnection.HandleMailboxUpdate` | internal/sync/idle.go:274-305 | an update without a message count is no event; any other is offered |
| `PoolObjects.IdleConnection.Receive` | internal/sync/pool.go:302-310 | events come out in the order they were accepted, also after a Close |
| `PoolObjects.IdleConnection.Close` | internal/sync/idle.go:159-198 | only the first call closes; it joins exactly the errors of ending IDLE, logging out and closing the client |
| `PoolObjects.IdlePool.AddAccount` | internal/sync/pool.go:76-110 | which of the errors, or a fresh entry in the map and nothing else changed |
| `PoolObjects.IdlePool.TakeAccount` | internal/sync/pool.go:115-132 | the locked section takes an entry whose stop channel is open out of the map |
| `PoolObjects.IdlePool.RemoveAccount` | internal/sync/pool.go:114-134 | closes exactly that entry's stop channel, which was open |
| `PoolObjects.IdlePool.AwaitTaken` | internal/sync/pool.go:135-139 | RemoveAccount's wait ends with the worker done, its connection slot empty and its entry in no map |
| `PoolObjects.IdlePool.TakeAll` | internal/sync/pool.go:186-204 | collects every entry of the map, each once, and empties the map; a second Close fails |
| `PoolObjects.IdlePool.StopAll` | internal/sync/pool.go:206-208 | every stop channel that Close closes was open |
| `PoolObjects.IdlePool.AwaitAll` | internal/sync/pool.go:210-214 | after all collected workers are done the events channel is closed, once |
| `PoolObjects.IdlePool.HandleConnectionError` | internal/sync/pool.go:336-346 | the new backoff is min(2^retryCount, 300), for any history |
| `PoolObjects.IdlePool.Established` | internal/sync/pool.go:264-268 | fills a slot that was empty and resets the backoff |
| `PoolObjects.IdlePool.CheckClosed` | internal/sync/pool.go:312-318 | goes on to the send exactly when the pool is open |
| `PoolObjects.IdlePool.Send` | internal/sync/pool.go:320-329 | at any later time: appends unless the channel is full, and panics exactly when it is closed |
| `PoolObjects.IdlePool.Forward` | internal/sync/pool.go:312-329 | both in a row: a closed pool gets nothing, a full channel drops, and the send finds the channel open |
| `PoolObjects.IdlePool.Clear` | internal/sync/pool.go:277-279 | empties a slot that was full |
| `PoolObjects.IdlePool.CloseConnectionAndExit` | internal/sync/pool.go:226-236 | at the loop head there is never a connection to close |
| `PoolObjects.IdlePool.ConnectedAccounts` | internal/sync/pool.go:161-174 | counts exactly the accounts whose workers are forwarding or about to clear their slot; at most the number of accounts |
| `Poller.Poller.EmitEvent` | internal/sync/poller.go:338-367 | one attempt to emit; dropped when closed or full |
| `Poller.Poller.Poll` | internal/sync/poller.go:226-289 | emits exactly when a successful poll exceeds the remembered UIDNEXT or count, or is the first after failures and the mailbox is not empty; what it remembers; and it keeps the entry in step with the whole history |
| `Poller.SignalsExactly` | internal/sync/poller.go:270-289 | over histories: after a first success a poll signals if and only if it exceeds the last earlier success, with only failures between |
| `Poller.FirstSignalExactly` | internal/sync/poller.go:247-268 | the first success signals if and only if some poll failed before it and the mailbox is not empty |
| `Poller.QuietMailboxIsSilent` | internal/sync/poller.go:226-289 | a mailbox that does not change is never signalled, however often it is polled |
| `Poller.FailuresAreInvisible` | internal/sync/poller.go:226-289 | failures after the first success change no signal, and those before it count only as "some" |
| `Poller.EachArrivalIsSignalledOnce` | internal/sync/poller.go:270-289 | with UIDNEXT rising, each UID assigned between the first and the last success is revealed by exactly one poll, and that poll signals |
| `WebhookQueue.Select` | internal/db/queries/webhook_queue.sql:11-15 | due rows only, in insertion order, at most the limit, and some row whenever one is due |
| `WebhookQueue.SelectIsOldestFirst` | internal/db/queries/webhook_queue.sql:11-15 | a due row is left out of a batch only when the batch is full of rows inserted before it |
| `WebhookQueue.ScheduleInSeconds` | internal/webhook/worker.go:374-382 | the schedule entry by entry, with its last entry from then on |
| `WebhookQueue.InvStep` | internal/webhook/worker.go:183-440 | every step (deliveries, lost writes, crashes, inserts, deletes) keeps each row's ledger, spacing and bounds, and every snapshot equal to its row |
| `WebhookQueue.InvRun` | internal/webhook/worker.go:183-440 | the same over whole runs |
| `WebhookGuarantees.Ledger` | internal/webhook/worker.go:211-440 | in every reachable state: POSTs + tries without one + doubly written = attempts + terminal + lost writes + cancelled sends + the try in progress; attempts stay below MaxRetries |
| `WebhookGuarantees.TallyCounts` | internal/webhook/worker.go:211-292 | the ledger's POSTs, acceptances, cancelled sends and lost writes are exactly the steps of these kinds in the run |
| `WebhookGuarantees.PostsAreBounded` | internal/webhook/worker.go:211-440 | a row gets at most MaxRetries POSTs plus its lost writes and cancelled sends |
| `WebhookGuarantees.PostsBoundIsReached` | internal/webhook/worker.go:385-408 | a row that is always refused gets exactly MaxRetries POSTs and is then failed, for every configuration |
| `WebhookGuarantees.AttemptsAreReached` | internal/webhook/worker.go:385-425 | every count below MaxRetries is reached by a run |
| `WebhookGuarantees.TerminalIsFinal` | internal/webhook/worker.go:183-208 | a delivered or failed row is never changed at any later point of any run, and a delivered row was answered 2xx |
| `WebhookGuarantees.SnapshotsAreCurrent` | internal/webhook/worker.go:183-208 | each snapshot still to be tried equals its row, so no newer count is overwritten |
| `WebhookGuarantees.TriesAreSpaced` | internal/webhook/worker.go:374-423 | a row tried with a counted attempts waited at least the first a entries of the schedule in all and the last one since its last retry; the index is in bounds |
| `WebhookGuarantees.ExhaustionTakesTime` | internal/webhook/worker.go:374-408 | a row dies by exhaustion no sooner than the schedule's prefix sum after its creation, 81 minutes at the default |
| `WebhookGuarantees.FourHoursExactly` | internal/webhook/worker.go:374-382 | some run waits four hours if and only if at least six tries are configured |
| `WebhookGuarantees.WorkStep` | internal/webhook/worker.go:211-440 | each effective delivery uses up work, steps without a write change none, and only an insert adds any |
| `WebhookGuarantees.DeliveriesUseWork` | internal/webhook/worker.go:211-440 | the same added up over whole runs |
| `WebhookGuarantees.QueueDrains` | internal/webhook/worker.go:183-440 | without inserts a run holds at most n times MaxRetries deliveries for n rows, and after as many as there was work no row is pending |
| `WebhookGuarantees.QueueDrainsForAnyAnswers` | internal/webhook/worker.go:183-440 | from every reachable state between deliveries, for every function from delivery number to answer, the worker's own steps reach a state without a pending row, in at most n times MaxRetries deliveries that touch a row |
| `WebhookGuarantees.NoStall` | internal/db/queries/webhook_queue.sql:11-15 | while a row is pending, after some wait the next batch is not empty |
| `WebhookWorker.Worker.constructor` | internal/webhook/worker.go:83-116 | a zero value means 5 retries or 10 rows, and any other value is kept |
| `WebhookWorker.Worker.MarkFailed` | internal/webhook/worker.go:359-372 | the row's status becomes failed unless the write is lost or the row is gone, and nothing else changes; reports whether it succeeded |
| `WebhookWorker.Worker.MarkDelivered` | internal/webhook/worker.go:342-355 | the row's status becomes delivered unless the write is lost or the row is gone, and nothing else changes; reports whether it succeeded |
| `WebhookWorker.Worker.ScheduleRetry` | internal/webhook/worker.go:385-448 | at the last try the row is failed; before it the try is counted and the next one put off by the schedule, or the row failed when that write reports an error |
| `WebhookWorker.Worker.DeliverWebhook` | internal/webhook/worker.go:211-292 | what becomes of the row, case by case over every mix of answers, with no other row changed; and exactly the machine's steps |
| `WebhookWorker.Worker.ProcessBatch` | internal/webhook/worker.go:183-208 | each fetched row up to shutdown is tried with its own answers and no other row changes; a fetch and then the deliveries in order |
| `WebhookWorker.OutcomeMeaning` | internal/webhook/worker.go:211-292 | what a try does to its row, for the answers without lost writes |
| `MessageIds.ParseMessageIDs` | internal/api/message_handler.go:963-977 | the index loop computes the recursive scanner |
| `MessageIds.ParsedAreInnermostPairs` | internal/api/message_handler.go:963-977 | for every text the ids are exactly the innermost bracket pairs, each once, in order, without overlap |
| `MessageIds.ParsedAreTokens` | internal/api/message_handler.go:963-977 | each parsed id is "<…>" without inner brackets |
| `MessageIds.JoinSnoc` | internal/composer/composer.go:163-165 | the printed list has one space between any two ids, in order |
| `MessageIds.ParseJoin` | internal/composer/composer.go:163-165 | any list of bracket-free tokens is read back from its space-separated form |
| `MessageIds.ParseIsStable` | internal/api/message_handler.go:963-977 | reading, printing and reading again changes nothing, for every text |
| `References.ExtractReferences` | internal/api/message_handler.go:917-960 | the two scanning loops terminate and compute the specification, for every text |
| `References.SkipWsp` | internal/api/message_handler.go:930-932 | jumps over spaces and tabs, and over nothing else |
| `References.FindValueEnd` | internal/api/message_handler.go:934-957 | the first position that is a line end without a continuation, or the end of the text |
| `References.ValueStopsMeaning` | internal/api/message_handler.go:938-954 | that is CR, LF or CRLF with neither space nor tab after it |
| `References.NameAtMeaning` | internal/api/message_handler.go:918-925 | where the name stands: its eleven characters, each letter in either case |
| `References.IndexIsFirstName` | internal/api/message_handler.go:918-925 | searching the lowered text finds the first such place, or none |
| `References.AnyCaseIsRead` | internal/api/message_handler.go:917-960 | a header in any mix of cases is read when no such text stands before it |
| `References.ComposedHeaderIsRead` | internal/api/message_handler.go:917-960 | "References:", as the composer prints it, is read |
| `References.ValueLengthOfFolded` | internal/api/message_handler.go:934-957 | the scan stops exactly at the end of the folded value, whatever header or body follows |
| `References.FoldingIsIrrelevant` | internal/api/message_handler.go:917-960 | a folded header gives the ids of the unfolded one if and only if no line break falls inside an id |
| `References.PrintFoldExtractExactly` | internal/composer/composer.go:163-165 | printed ids are extracted again after any legal folding if and only if no break falls inside an id |
| `References.PrintFoldExtract` | internal/api/message_handler.go:917-960 | ids without white space survive every legal folding |
| `References.BlankLine` | internal/api/message_handler.go:941-954 | a CRLF blank line always ends the value |
| `References.BareBlankLine` | internal/api/message_handler.go:941-954 | a bare-LF blank line ends it exactly when the body does not start with white space, and otherwise the body's start is read |
| `References.EarlierMentionHidesTheHeader` | internal/api/message_handler.go:917-925 | the first text that holds the name, in any case and anywhere in a line, is read as the header, and a real one after it is ignored |
| `References.PrefixedNameHidesTheHeader` | internal/api/message_handler.go:917-925 | so a header whose name ends in the one looked for hides it: no ids are found |
| `References.HeaderIsReadExactly` | internal/api/message_handler.go:917-925 | a References header at the start of a line is read, for every value and whatever follows, if and only if its name does not occur anywhere before it |
| `Threading.ValidMessageIDShape` | internal/composer/composer.go:227-241 | the accepted ids are exactly "<left@right>" with non-empty sides, split at the first '@' |
| `Threading.ValidateThreading` | internal/composer/composer.go:98-108 | no error if and only if all ids are acceptable; otherwise the first offender is reported |
| `Threading.BuildThenExtract` | internal/composer/composer.go:163-165 | what is built from a list of usable ids is extracted as that list |
| `Threading.BuildReplyContext` | internal/api/message_handler.go:772-794 | the reply's references are the original's and then its id, and none when the original has no id |
| `Threading.ThreadHop` | internal/api/message_handler.go:784-787 | a reply carries what its original carried, then the original's id |
| `Threading.ThreadChain` | internal/api/message_handler.go:784-787 | in a chain of any length, with the header as the composer prints it folded anywhere but inside ids, every message carries exactly the ids of all its ancestors, oldest first (section 3.6.4 of RFC 5322) |
| `Threading.FoldedThreadChain` | internal/api/message_handler.go:784-787 | the same for ids without white space when every header is folded wherever section 2.2.3 of RFC 5322 allows |
| `Threading.ThreadIsAccepted` | internal/composer/composer.go:103-108 | the composer refuses no reference that such a chain produces |
| `Quoting.QuoteLines` | internal/api/message_handler.go:1087-1095 | the in-place loop computes the prefixed lines |
| `Quoting.QuotedLines` | internal/api/message_handler.go:1087-1095 | the lines of the quoted text are the original lines, each with the prefix |
| `Quoting.QuotedLineByLine` | internal/api/message_handler.go:1087-1095 | "> " before each line, and the line breaks as they were |
| `Quoting.UnquoteQuoted` | internal/api/message_handler.go:1087-1095 | quoting loses nothing and keeps the number of lines |
| `Quoting.UnquoteQuotedTimes` | internal/api/message_handler.go:1087-1095 | the same for any depth of quoting |
| `Quoting.EscapeHTML` | internal/api/message_handler.go:1098-1105 | four replacements in sequence escape each character once |
| `Quoting.FourPassesAreOne` | internal/api/message_handler.go:1098-1105 | no replacement touches the output of another |
| `Quoting.EscapedCharByChar` | internal/api/message_handler.go:1098-1105 | the four entities, any other character as itself, character by character |
| `Quoting.UnescapeEscaped` | internal/api/message_handler.go:1098-1105 | escaping is undone by a reader of the four entities, so different texts stay different |
| `Quoting.EscapedIsInert` | internal/api/message_handler.go:1098-1105 | the escaped text holds no '<', '>' or '"' |

## Left out

- IMAP, SMTP, S3, HTTP and PostgreSQL themselves: each call is a nondeterministic answer over an abstract store.
- TLS, error classification, encryption, HMAC, base64, JSON, enmime and address parsing: library code, or not stateful.
- Building and parsing of whole messages: a built message is any text in which References is the first match of its name, legally folded.
- Unicode: `strings.ToLower` is the ASCII mapping, so lowered and raw offsets agree.
- `buildPayload`, reply subjects, recipient lists, address formatting: easy members.
- Routing, request validation, health checks, logging, configuration, pagination, full-text search.
- Several webhook workers: no row lock spans a delivery, so nothing is claimed for them. Application and database share one clock; rows are ordered by insertion, and a deleted row stays as a row that is not live.
- SyncGuarantees.NoStrandedMail: states the absence of stranded mail for runs in which failures come last in their batches, because it is false without; AdvanceStrandsExactly has the exact condition for each cursor update.
- SyncGuarantees.EventCatchesUp: mail at or below the cursor that an earlier handler passed over, and mail of deleted accounts, is excepted, because the search does not return it.
- IngestGuarantees.CompensationRestores: assumes fresh keys, working deletes and no object left by a failed PUT; CompensationExactly and IntegrityExactly have the exact conditions.
- IngestRaces.RowsNeverDangle: assumes that no call begins with a key in use; BeginBreaksExactly shows that this is needed. Deletion of emails and their attachment rows is not part of this machine.
- PoolGuarantees.CloseIsSafe: assumes that no RemoveAccount overlaps Close; PanicExactly has the exact condition.
- Coordinator.Coordinator.Close: ends before the wait for both loops, since their own steps come between; LoopsCanStop shows that it can end.
- PoolObjects.IdlePool.RemoveAccount: ends before the wait for the worker, which is AwaitTaken, since the worker's own steps come between them.
- PoolObjects.IdlePool.Forward: has no interference between its two halves; CheckClosed and Send on their own allow any.
- Coordinator.Coordinator.HandleEvent: says what the tables become, UID by UID, for search results that repeat no UID, as UID sets do; for others they are those of its specification.
- An INSERT of an email that takes effect but reports an error.
- Interference inside class methods: methods run without it, and all interleavings are in the machines. `runAccount` and `forwardEvents` appear as one method for each lock section or channel operation, since other goroutines run between these.
- The merged event channel's contents in the machine of IdlePool: its capacity is modelled in PoolObjects.
- The poller's own Add, Remove and Close: the same protocol as the pool's.
- The coordinator's AddAccount and its choice between IDLE and polling; the copy of a sent message stored under UID 0.
