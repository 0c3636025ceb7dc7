# Verified model of the FDO voucher manager

The voucher manager receives ownership vouchers, keeps one file per voucher and two database tables
(transmissions and access grants), pushes pending vouchers to their destinations with retries, and lets a
custodian have a voucher signed over ("assigned") to a customer. Almost every promise it makes spans a file, a
table and a cryptographic step, any of which may fail on its own. This project models those parts and proves
what holds over whole runs.

- `Vouchers`, `FileStore`, `Records`, `Queries`, `TransmissionStore`: vouchers as a GUID and a chain of owner
  keys, the files with their `.preassign` backups, the two tables and the SQL on them. ORDER BY leaves ties open,
  so a query answer is a relation (`Limited`), not one fixed list.
- `Assignment`, `AssignRequests`: assign over HTTP and from the command line, and unassign, as methods on the
  stores; each is proved equal to an effect function whose `Io` argument says which disk and database calls
  succeed, and what the effect means for answers, records, grants and whole requests is proved about it.
- `Intake`, `Backoff`, `Delivery`, `Progress`: reception, record creation, push attempts, backoff in 64-bit
  nanoseconds, the retry worker, and what its batches achieve over time.
- `Runs`, `Safety`, `History`, `Retention`, `Reassignment`, `Freshness`: the state machine over receive, pipeline, assign,
  unassign, worker attempt and manual retry, in any order and with any failures, with a history of events; its
  invariants and the theorems over all legal runs.
- `Access`, `PullPage`, `CustodianAccounting`: who sees which voucher, the pull listing, the custodian counts.
- `Tokens`, `Templates`, `Partners`, `Admission`: pull session tokens, command templates, partner trust and
  routing, and whose vouchers come in.

Main results:

1. Voucher files stay safe in every run (a received voucher, or that voucher plus exactly one entry with the
   received bytes in the backup) **if and only if** the holder's own key is never named as new owner
   (`Safety.FilesSafeIffHolderExcluded`). The same condition is exact for "ok" being answered at most once between
   restores or receptions (`Safety.AtMostOnceIffHolderExcluded`), although the status update may fail silently and
   a manual retry may overwrite the assigned status.
2. At most once between completed restores alone, as promised (CLI_REFERENCE.md:133-137), holds in every run **if
   and only if** in addition Stat calls on existing files succeed and delete_after_success is off
   (`Reassignment.RestoredBetweenIff`). Each missing condition has a run that assigns twice: the holder as new owner,
   a failing Stat that lets a voucher in again (`Reassignment.StatFailureRun`), a delivered and removed voucher that
   comes in again (`Reassignment.RemovalRun`). The same condition is exact for every file being, or extending once,
   the **latest** reception of its voucher (`Freshness.FilesFreshIff`). And one assign request, however often it
   repeats a serial, is answered "ok" at most once per voucher (`Retention.OkOncePerRequest`).
3. Assign then unassign is a round trip on files, rows and grants (`Assignment.AssignUnassignRoundTrip`), with exact
   conditions for each part to be as before (`Assignment.RoundTripRestoresIff`), and its hypotheses hold in every
   run of result 1 (`Safety.RoundTripAppliesInRuns`). In between, exactly the assigned record carries the new owner
   (`Assignment.AssignmentIsRecorded`).
4. Over any sequence of batches, idle and failing ones included, the batches that had to make progress are at most
   the pushes owed at the start (`Progress.RetriesTerminate`). A batch is sure to hold a deliverable record **if and
   only if** fewer undeliverable records than slots may be listed ahead of all deliverable ones
   (`Progress.DeliverableGetsASlotIff`). A record is starved for good **if and only if** at least as many pending
   undeliverable records as slots are strictly ahead of it (`Progress.StarvedForeverIff`), and a legal run leads
   there: receptions whose destination does not resolve, then one whose first push fails
   (`Progress.StarvingRunStarves`).
5. A pull page that reports no more can leave out a qualifying voucher **if and only if** some record is newer than
   the Until bound, and such records together with qualifying ones of other vouchers, none of them older than the
   voucher's own, fill the query (`PullPage.VoucherMissedIff`). Counted in records, the condition is that of
   `PullPage.SilentLossIff`; a hidden record need not hide its voucher (`PullPage.HiddenRecordExample`). Without an
   Until bound every page is the exact prefix of the newest qualifying records (`PullPage.PageWithoutUntil`), and
   one that reports no more lists every qualifying voucher (`PullPage.LastPageWithoutUntil`).
6. Five access decisions written separately (a SQL join, a SQL union and three Go gates) are one predicate
   (`Access.FiveDecisionsAgree`).
7. Partner trust and routing are about the key that was presented after every sequence of table operations
   (`Partners.PartnersAreSoundOverAllOperations`).
8. The command executor, which replaces one placeholder after the other in the order of a map, gives the
   simultaneous substitution for every template and every order **if and only if** each value is its own placeholder
   or that placeholder cannot form from the values of other names (`Templates.ExactInAllOrdersIff`); the same holds
   for each single replacement (`Templates.FillsExactlyIff`).
9. With require_trusted_manufacturer on, every voucher a run ever received came from a manufacturer whose key an
   enabled supplier held at that time, whatever happened to the partners before (`Admission.ReceivedFromSuppliers`).
10. A request answers its serials one by one, in order (`Assignment.VoucherAssignHandler.ServeAssign`); if no call
   fails, each serial that was ready ends up assigned to the owner named (`AssignRequests.EachReadyIsAssigned`), and
   its caller, nobody else, becomes a custodian (`Assignment.AssignmentMakesCustodian`).
11. No batch touches a record before its retry time: the longer of the server's wish and three quarters of the
   configured interval, doubled with each attempt (`Progress.NotRetriedEarly`).

Modelling assumptions:

- Steps are serialised: one assign, unassign, reception, pipeline run or attempt at a time, and the record a
  worker attempts is still the one it fetched. `WriteFile` completes or leaves the old bytes.
- Parsing undoes formatting, and wrapping bytes that are not PEM yet in PEM does not change what they parse to
  (`Vouchers.Lawful`). Extending a voucher succeeds only with the key at its chain tip
  (VOUCHER_ASSIGNMENT.md:113); signatures are arbitrary.
- GUIDs are 16 bytes stored as lower-case hex, so `filepath.Join` only concatenates. SQLite sorts NULL first in
  ascending order. One reading of the clock per call.
- The HTTP service and the commands sign with the same holder key (voucher_assign_cli.go:417-430).
- `float64` rounding is monotone and exact on quarters of whole numbers below 2^53 (`Backoff.LawfulRounding`).

Where the code and its documentation differ, the model follows the code:

- VOUCHER_ASSIGNMENT.md calls the status check the sole at-most-once guard (line 228); over runs with failing status
  updates and manual retries it is the chain tip that protects the voucher.
- voucher_assign_cli.go:277-278 promises the pre-assignment state after unassign; `Assignment.RoundTripRestoresIff`
  says exactly when it comes back: the record when its status was the one unassign falls back to, the grants when
  the voucher had none before, because all of its grants go. In the default deployment the status does not come
  back (`Reassignment.RoundTripLosesStatus`).
- partner_store.go:39-40 calls the fingerprint derived, not stored directly; Add stores a given one when there is no
  key (`Partners.AddLeavesStrayIff`).
- The receiver's duplicate check (voucher_receiver_handler.go:170) takes any Stat failure for absence and then
  overwrites the voucher; reception therefore counts in result 1 as an event that ends an assignment, and result 2
  says when it cannot.

## Model

| member | source | states |
|---|---|---|
| FileStore.PathsDistinct | voucher_file_store.go:38-45 | two vouchers share a voucher, backup or temporary path exactly when they are the same, and the three kinds of path never coincide |
| FileStore.CaseDoesNotMatter | voucher_file_store.go:38-45 | the file is the lower-case GUID with .fdoov, so spellings that differ in case share it; backup and temporary file add their suffixes |
| FileStore.BackupRestoreRoundTrip | voucher_file_store.go:81-123 | a restore brings back the backed-up bytes after any overwrite and removes the backup, touching nothing else |
| FileStore.VoucherFileStore.SaveVoucher | voucher_file_store.go:48-76 | the formatted voucher lands at the path of its header GUID, or nothing changes |
| FileStore.VoucherFileStore.BackupVoucher | voucher_file_store.go:81-98 | succeeds exactly when the file is there and both calls succeed; copies the current bytes |
| FileStore.VoucherFileStore.RestoreVoucher | voucher_file_store.go:103-123 | succeeds exactly when a backup is there and read and write succeed; a failed removal is not an error |
| Records.InsertKeepsFirstWriter | voucher_transmission_store.go:464-481 | grants stay unique on (guid, fingerprint, type); existing grants are kept as first written |
| Records.WithoutGuidKeepsUnique | voucher_transmission_store.go:621-627 | removing a voucher's grants keeps the rest unique |
| Records.WithoutGuidSameIff | voucher_transmission_store.go:621-627 | the grants table stays as it is exactly when the voucher has no grants |
| Queries.Select | voucher_transmission_store.go:246-254 | WHERE, ORDER BY and LIMIT: the least `limit` matching rows, each once, in order |
| Queries.LeftJoin | voucher_transmission_store.go:534-536 | the rows of a left join with their multiplicity: one per match, and one with nothing on the right for a row without a match |
| Queries.LeftJoinMembers | voucher_transmission_store.go:534-536 | a pair is in the join exactly when it is a match, or an unmatched row with nothing on the right |
| TransmissionStore.VoucherTransmissionStore.CreatePending | voucher_transmission_store.go:148-216 | appends one row with a new primary key and stamps the timestamps the caller left at zero, or nothing on a database error |
| TransmissionStore.VoucherTransmissionStore.MarkAttempt | voucher_transmission_store.go:219-241 | rewrites the delivery columns of that row only; delivered_at is set only on delivery |
| TransmissionStore.VoucherTransmissionStore.MarkAssigned | voucher_transmission_store.go:586-600 | rewrites the assignment columns of that row only, without any guard on its status |
| TransmissionStore.VoucherTransmissionStore.MarkUnassigned | voucher_transmission_store.go:605-618 | clears the four assignment columns of that row and sets the given status |
| TransmissionStore.VoucherTransmissionStore.InsertAccessGrant | voucher_transmission_store.go:466-481 | INSERT OR IGNORE: the table keeps its uniqueness and grows by at most the new grant |
| TransmissionStore.VoucherTransmissionStore.RemoveAccessGrantsForVoucher | voucher_transmission_store.go:621-627 | exactly the voucher's grants go |
| TransmissionStore.VoucherTransmissionStore.FetchBySerial | voucher_transmission_store.go:568-583 | all records of the serial, newest first; the first is a newest one |
| TransmissionStore.VoucherTransmissionStore.FetchLatestByGUID | voucher_transmission_store.go:300-338 | a newest record of the voucher, none only if there is none |
| TransmissionStore.VoucherTransmissionStore.PendingForRetry | voucher_transmission_store.go:244-262 | pending rows whose retry time is absent or past, at most `limit`, none of them later than a due row left out |
| TransmissionStore.VoucherTransmissionStore.ListTransmissions | voucher_transmission_store.go:265-297 | the newest `limit` rows that pass the optional status and GUID filters |
| TransmissionStore.VoucherTransmissionStore.HasAccessByGUID | voucher_transmission_store.go:551-565 | true exactly for direct owners and grantees of the voucher |
| TransmissionStore.VoucherTransmissionStore.ListByAccessGrant | voucher_transmission_store.go:525-547 | left join, filter and DISTINCT return each visible row exactly once, newest first, up to the limit |
| TransmissionStore.VoucherTransmissionStore.ListByCustodian | voucher_transmission_store.go:711-733 | each row of a voucher granted to the custodian exactly once |
| TransmissionStore.VoucherTransmissionStore.ListCustodians | voucher_transmission_store.go:675-708 | one summary per custodian with the number of distinct vouchers granted and the set of their known serials, largest first |
| TransmissionStore.DueMeans | voucher_transmission_store.go:244-262 | an answer holds pending rows whose retry time is absent or past; a due row it leaves out means it is full of rows that go first, by retry time and then by age |
| TransmissionStore.LimitedIsNewestPage | voucher_transmission_store.go:265-297 | such a listing obeys a positive limit, else 50, is newest first and cut off only when full |
| TransmissionStore.LimitedIsLargestPage | voucher_transmission_store.go:688-694 | the same for custodians, by their counts |
| TransmissionStore.SummaryMeans | voucher_transmission_store.go:675-708 | a summary names exactly the known, non-empty serials of the vouchers granted |
| Assignment.VoucherAssignHandler.DenyAccess | voucher_assign_handler.go:176-185 | the assign gate denies exactly scoped callers without access, or when the query fails |
| Assignment.DeniedIff | voucher_assign_handler.go:176-185 | denied are exactly API callers with a fingerprint and without the global token who own no record and hold no grant of the voucher, or whose access cannot be checked |
| Assignment.DeniedLooksUnknown | voucher_assign_handler.go:170-185 | a denied caller gets the answer an unknown serial gets, and nothing changes |
| Assignment.AnswerMeans | voucher_assign_handler.go:187-235 | anyone else is told already_assigned or already_signed_over exactly by the record's status, and "ok" exactly when the voucher can be signed over and no step that matters fails |
| Assignment.RefusalChangesNothing | voucher_assign_handler.go:187-242 | a refusal leaves rows and grants alone, and every file but the backup |
| Assignment.FailedMarkIsSilent | voucher_assign_handler.go:244-247 | when the update of the status fails the records stay, although the answer is "ok" |
| Assignment.VoucherAssignHandler.AssignRecord | voucher_assign_handler.go:180-277 | the whole new state and answer of one assignment, for every combination of failing calls |
| Assignment.VoucherAssignHandler.AssignVoucher | voucher_assign_handler.go:162-278 | the same, for a newest record of the serial, or not_found without one |
| Assignment.VoucherAssignHandler.ServeAssign | voucher_assign_handler.go:91-149 | callers that may not assign, and requests without serials or without exactly one resolvable new owner, change nothing; otherwise the i-th answer is about the i-th serial, each served on the state the previous one left, and every row that is new has a requested serial and is assigned to the owner named |
| Assignment.WellPosedMeans | voucher_assign_handler.go:104-141 | a request is turned down for no serials, no key, no owner or two, and a DID that cannot be resolved |
| Assignment.RequestIsAnswered | voucher_assign_handler.go:144-149 | that follows from serving one call per serial in order |
| AssignRequests.EachReadyIsAssigned | voucher_assign_handler.go:144-278 | for different vouchers and no failing call, each serial that was ready is answered "ok" and its record assigned, whichever equally new records are picked |
| Assignment.VoucherCommands.AssignVoucherCLI | voucher_assign_cli.go:178-275 | the command has the effect of the API call without the access gate |
| Assignment.VoucherCommands.SelectSerials | voucher_assign_cli.go:109-125 | the GUID form works on the serial of the voucher's newest record |
| Assignment.VoucherCommands.Unassign | voucher_assign_cli.go:346-391 | the whole new state of one unassignment; a failed restore or grant removal is not an error |
| Assignment.UnassignAnswers | voucher_assign_cli.go:346-374 | refused are exactly unknown serials, records that are not assigned and failing updates, and then nothing changes |
| Assignment.UnassignDoes | voucher_assign_cli.go:376-382 | a readable backup replaces the file and goes if it can be removed; the voucher's grants go if the database removes them |
| Assignment.AssignUnassignRoundTrip | voucher_assign_cli.go:346-391 | without failures: same files (a stale backup removed), other rows untouched, this row's assignment cleared, exactly this voucher's grants gone |
| Assignment.RoundTripRestoresIff | voucher_assign_cli.go:361-382 | which parts of the world before an assignment come back after its unassignment, exactly: files unless a stale backup was there, grants unless there were some, the record when its status was the fallback and it had no assignment |
| Assignment.AssignmentGrantsAccess | voucher_assign_handler.go:249-267 | after "ok" with no database error, custodian and new owner can see the voucher; earlier grants stay |
| Assignment.AssignmentIsRecorded | voucher_assign_handler.go:244-247 | an "ok" assignment stores new owner, DID, director and time in that record only, and keeps every other column |
| Assignment.AssignmentMakesCustodian | voucher_assign_handler.go:249-267 | after "ok" the caller's custodian vouchers grow by exactly this one and nobody else's change; the new owner holds an owner grant; new grants are full, carry the requested serial and their origin |
| Assignment.UnassignLeavesDirectOwners | voucher_assign_cli.go:379-382 | after unassign exactly the direct owners of the voucher's records can see it |
| Assignment.GuidFormReachesVoucherIff | voucher_assign_cli.go:111-117 | the GUID form reaches the named voucher exactly when no other voucher's record under its serial is as new |
| Assignment.GuidFormMisses | voucher_assign_cli.go:111-117 | two vouchers under one serial, the other newer: naming the older one reaches the newer |
| Intake.VoucherReceiverHandler.SaveVoucher | voucher_receiver_handler.go:272-300 | temp file then rename: the voucher file changes only when both succeed |
| Intake.VoucherReceiverHandler.Receive | voucher_receiver_handler.go:112-184 | each answer exactly by the bytes, the manufacturer's key, the setting, the file and the writes; only an accepted voucher changes voucher files |
| Intake.ReceiveAnswers | voucher_receiver_handler.go:112-184 | the same of the effect: untrusted exactly for a parsable voucher whose key is unreadable, or untrusted while trust is required |
| Intake.AcceptedParses | voucher_receiver_handler.go:278-292 | an accepted voucher is on disk as bytes that parse to the voucher sent |
| Intake.VoucherPipeline.ProcessVoucher | voucher_pipeline.go:126-176 | one new pending record, with or without a destination, and one immediate attempt if it has one |
| Intake.PipelineRecords | voucher_pipeline.go:126-195 | the new row describes the voucher and its route column by column, and its owner can see the voucher |
| Intake.PipelineFails | voucher_pipeline.go:140-158 | without a stored record nothing changes |
| Admission.ReceptionsPassedTheGate | voucher_receiver_handler.go:130-152 | every reception in a run came through a step past the manufacturer gate |
| Admission.ReceivedFromSuppliers | voucher_receiver_handler.go:130-152 | with trust required and a partner store, every received voucher's manufacturer key was held by an enabled supplier at the time |
| Backoff.BackoffDuration | voucher_push_service.go:207-226 | the delay as computed in wrapping 64-bit arithmetic and rounding float64 jitter |
| Backoff.DelayBand | voucher_push_service.go:218-225 | without overflow the delay is within a quarter of min(base*2^shift, 24h), positive, at most 30 hours |
| Backoff.UnjitteredIff | voucher_push_service.go:218-222 | the delay before jitter is right exactly when the product fits in 63 bits or wraps above the cap |
| Backoff.OverflowExample | voucher_push_service.go:218-222 | a base of 2^43 ns gives a negative delay from the 21st attempt |
| Backoff.FitsAtEveryAttempt | voucher_push_service.go:129-135 | a base that fits at the last retried attempt fits at every earlier one |
| Backoff.DefaultsFit | config.go:275-299 | the default interval and attempt limit never overflow |
| Backoff.DelayGrows | voucher_push_service.go:205-206 | below the cap each attempt waits strictly longer, whatever the jitters |
| Backoff.JitterReaches | voucher_push_service.go:223-225 | the lowest draw takes a quarter of the capped delay away, the middle one nothing |
| Backoff.NoIntervalIsMinute | voucher_push_service.go:208-210 | an interval that is not positive counts as one minute |
| Delivery.VoucherPushService.AttemptRecord | voucher_push_service.go:84-176 | outcome, stored row and removed file of one attempt; records without file or destination are left alone |
| Delivery.RescheduleBand | voucher_push_service.go:129-139 | a row stays pending exactly after a transient failure with attempts left, and waits the longer of backoff and Retry-After |
| Delivery.AttemptStored | voucher_push_service.go:98-161 | the stored row after delivery, permanent and transient failure: pending exactly below push_service.max_attempts if set, else the worker's limit, else five |
| Delivery.WaitStored | voucher_push_service.go:129-139 | the stored retry time, from the configured interval (push service, worker, eight hours), doubled, capped at a day and jittered, or the server's wish if longer |
| Delivery.FirstRetryByDefault | voucher_push_service.go:129-139 | with nothing configured the first retry comes six to ten hours later, or when the server says |
| Delivery.AttemptNotStored | voucher_push_service.go:84-97 | without file, destination or database an attempt changes nothing |
| Delivery.AttemptRemoves | voucher_push_service.go:161-168 | the file goes exactly after a stored delivery with removal on, if removing works |
| Delivery.VoucherRetryWorker.constructor | voucher_retry_worker.go:22-48 | the batch size is between 5 and 50 for every configuration |
| Delivery.VoucherRetryWorker.ProcessBatch | voucher_retry_worker.go:91-118 | works through a legal query answer in order, stopping when cancelled |
| Delivery.BatchTouchesOnlyDueRows | voucher_retry_worker.go:95-116 | rows that are not pending, not selected, or not reached before cancellation come through a batch unchanged |
| Delivery.SnapshotsStayCurrent | voucher_retry_worker.go:106-112 | each fetched record is still the stored one when its turn comes |
| Progress.DeliverableGetsASlotIff | voucher_retry_worker.go:95 | every legal answer to the worker's query holds a deliverable record exactly when fewer blockers than slots are due |
| Progress.BatchProgress | voucher_retry_worker.go:91-118 | no batch raises the pushes still owed, and one under the conditions of MustProgress lowers them |
| Progress.RetriesTerminate | voucher_retry_worker.go:73-89 | over any sequence of batches, those that had to make progress are at most the pushes owed at the start |
| Progress.UndeliverableStay | voucher_push_service.go:91-96 | rows without file or destination are selected but never changed |
| Progress.AheadKeepsOut | voucher_transmission_store.go:251-253 | as many pending rows strictly ahead as slots keep a row out of every answer, at every time |
| Progress.StarvedForeverIff | voucher_retry_worker.go:91-118 | no sequence of batches, whatever the clock and the outcomes, ever selects a pending row, exactly when at least as many undeliverable pending rows as slots are strictly ahead of it |
| Progress.StarvingRunStarves | voucher_pipeline.go:126-195 | a legal run from an empty service that starves a deliverable row: unresolved receptions, then one whose first push fails |
| Progress.NotRetriedEarly | voucher_push_service.go:129-139 | after a transient failure no sequence of batches touches the row before the longer of the server's wish and three quarters of the doubled interval has passed |
| Runs.StepKeepsCoherent | voucher_transmission_store.go:67-127 | every step keeps row ids and grant keys unique, and every record's GUID and path those of a received voucher |
| Safety.AssignWorksOnReceived | voucher_assign_handler.go:187-230 | an assignment that passes its checks reads received bytes with the holder at the tip |
| Safety.StepKeepsGuarded | voucher_assign_handler.go:232-242 | every step keeps backups equal to received bytes and extended files out of the holder's reach |
| Safety.OkMeansNotOpen | voucher_assign_handler.go:187-277 | "ok" is answered only for a voucher without an outstanding assignment |
| Safety.RunsAreGuarded | voucher_assign_cli.go:199-248 | over all legal runs without the holder as new owner: files guarded and assignment at most once |
| Safety.FilesSafeIffHolderExcluded | voucher_assign_handler.go:209-242 | files are safe in all runs exactly when the holder's key is never a new owner |
| Safety.AtMostOnceIffHolderExcluded | VOUCHER_ASSIGNMENT.md:28-43 | between two "ok" answers there is a restore or new reception in all runs, exactly under the same condition |
| Safety.BadRunTwice | voucher_assign_handler.go:245-247 | a concrete run: the holder named as new owner and a failing status update give two "ok" answers in a row |
| Safety.BadRunUnsafe | voucher_assign_handler.go:233-239 | the same run ends with two extra entries and the received bytes lost from the backup |
| Safety.RoundTripAppliesInRuns | voucher_file_store.go:48-76 | in these runs each record's file carries the record's GUID, so save, backup and restore meet at one path |
| Reassignment.RoundTripLosesStatus | voucher_assign_cli.go:361-368 | a legal run without failures in the default deployment: a pending record, assigned and unassigned, ends with status no_destination |
| History.AttemptsStayBounded | voucher_push_service.go:98-156 | attempts never exceed the limit plus the row's unassignments and manual retries; success sets delivered_at |
| History.RunsWithoutManualRetry | voucher_push_service.go:98-161 | delivered_at is set exactly on succeeded rows; without unassignments pending rows are below the limit |
| History.RunsKeepConfiguredLimit | voucher_push_service.go:195-204 | in every run attempts stay within the configured limit (push service, worker, five) plus the row's unassignments and manual retries |
| History.SucceededIsTerminal | voucher_assign_handler.go:192-195 | without manual retries a succeeded row never changes again |
| Retention.RemovedMeansDelivered | voucher_push_service.go:161-168 | a file is removed only in a state whose row is stored as succeeded |
| Retention.FilesLeaveOnlyAfterDelivery | voucher_push_service.go:161-168 | over all runs a received file is missing only with delete_after_success on and a delivered record |
| Retention.RestoreBetweenAssignments | voucher_assign_cli.go:374-377 | without the holder as new owner, with reliable Stat and files kept: between any two "ok" answers for one voucher a restore of it completed |
| Reassignment.RestoredBetweenIff | CLI_REFERENCE.md:133-137 | that holds in all runs exactly under those three conditions (or when nothing can be assigned at all) |
| Reassignment.StatFailureRun | voucher_receiver_handler.go:169-180 | a failing Stat lets an assigned voucher in again, and it is assigned twice without a restore |
| Reassignment.RemovalRun | voucher_push_service.go:161-168 | an assigned voucher is delivered, removed, received and assigned again without a restore |
| Freshness.FilesFreshIff | voucher_receiver_handler.go:169-180 | every file is the latest reception, or extends it once with it as backup, in all runs exactly under the condition of RestoredBetweenIff |
| Freshness.StaleByStat | voucher_file_store.go:103-123 | a failing Stat lets a newer voucher in, and an unassignment puts the older backup over it |
| Freshness.StaleByRemoval | voucher_file_store.go:103-123 | with removal on, a manual retry of an older record removes the assigned file, a newer one comes in, and an unassignment puts the older backup over it |
| Retention.BatchIsRun | voucher_retry_worker.go:106-117 | a batch is a legal run of single attempts with the same outcome |
| Retention.AssignRequestIsRun | voucher_assign_handler.go:144-149 | an assign request with many, also repeated, serials is a legal run of single assignments, and its "ok" answers are the events that run adds |
| Retention.OkOncePerRequest | voucher_assign_handler.go:144-149 | one request is answered "ok" at most once per voucher |
| Access.AccessGates.PullGate | voucher_pull_store.go:55-73 | lets a fingerprint through only if the voucher has a record and is accessible to it, and always then unless a query fails; the newest record's owner needs no access query |
| Access.AccessGates.StatusGate | voucher_status_handler.go:124-141 | the status gate's answer for the record found: shown, hidden, or failed when the access query fails |
| Access.FiveDecisionsAgree | voucher_status_handler.go:124-141 | listing, access query, pull, status and assign gate give one answer |
| PullPage.PullVoucherStore.List | voucher_pull_store.go:85-152 | the page built from a legal answer to the limit+1 query |
| PullPage.FirstPerGuidMeaning | voucher_pull_store.go:122-137 | GUIDs are distinct, in order of first occurrence, described by their first row, and cover the kept rows |
| PullPage.PageBounds | voucher_pull_store.go:105-144 | kept rows lie in the window; a continuation is a lower bound on them |
| PullPage.PageReads | voucher_pull_store.go:105-152 | kept rows lie between Since and Until inclusive, entries give GUID, serial, model and time of a voucher's newest kept row, and a continuation is there exactly with HasMore |
| PullPage.PageIsExact | voucher_pull_store.go:85-120 | with nothing newer than Until: the newest qualifying rows, and HasMore exactly when there are more |
| PullPage.PageWithoutUntil | voucher_pull_store.go:85-120 | without an Until bound every page is the newest qualifying rows, with an exact HasMore |
| PullPage.LastPageListsAll | voucher_pull_store.go:85-152 | with nothing newer than Until, a page that reports no more lists exactly the vouchers with a qualifying record |
| PullPage.LastPageWithoutUntil | voucher_pull_store.go:85-152 | without an Until bound, the GUIDs of a page that reports no more are those of the qualifying records |
| PullPage.VoucherMissedIff | voucher_pull_store.go:105-152 | some legal answer leaves a qualifying voucher off a page that reports no more exactly when records too new exist and, with qualifying records of other vouchers none older than its own, exceed the limit |
| PullPage.HiddenRecordExample | voucher_pull_store.go:122-137 | a page that hides a record and reports no more, yet lists every qualifying voucher |
| PullPage.SilentLossIff | voucher_pull_store.go:105-120 | counted in records: a page hides qualifying records while reporting no more exactly when records too new and qualifying ones together exceed the query |
| PullPage.EmptyPageExample | voucher_pull_store.go:105-120 | limit 1, Until 5, records created at 10, 9 and 1: every page is empty and reports no more |
| CustodianAccounting.CountIsNumberOfGrants | voucher_transmission_store.go:680-686 | COUNT(DISTINCT) equals the custodian's number of grants despite the join |
| CustodianAccounting.CustodianCountsAddUp | voucher_transmission_store.go:675-708 | listed counts are exact and, when nothing is cut off, sum to all custodian grants |
| CustodianAccounting.CountMatchesListingIff | voucher_transmission_store.go:711-733 | the count equals the vouchers listed exactly when every granted voucher has a record |
| CustodianAccounting.GrantsRecordedInRuns | voucher_assign_handler.go:249-267 | in every run each granted voucher has a record |
| CustodianAccounting.CountsAgreeInRuns | voucher_transmission_store.go:675-733 | so in every run a custodian's count and listing agree, voucher by voucher |
| Tokens.PullTokenStore.Issue | pull_service_setup.go:89-123 | drops exactly the tokens expired at the collection instant and adds the new one |
| Tokens.PullTokenStore.Validate | pull_service_setup.go:125-137 | the fingerprint of a stored token that has not expired |
| Tokens.CollectionIsInvisible | pull_service_setup.go:89-137 | the collected map accepts exactly what an append-only log would, with the same fingerprint |
| Tokens.NothingExpiredAfterIssueIff | pull_service_setup.go:104-120 | after an issue nothing expired remains exactly when the new token has not expired while waiting for the lock |
| Tokens.ExpiredWhileWaiting | pull_service_setup.go:104-120 | one issue whose collection runs after the new token expired: it stays, and is not accepted |
| Templates.Execute | external_executor.go:29-33 | the replacements in some order of the map; for clean values that is the simultaneous substitution |
| Templates.FillOne | external_executor.go:31-33 | one replacement fills exactly its holes when no placeholder can form from the values filled before |
| Templates.FillsExactlyIff | external_executor.go:31-33 | one replacement fills exactly its holes, in all templates and after any others, exactly when its value is its own placeholder or none can form |
| Templates.ExactInAllOrdersIff | external_executor.go:29-33 | every template gives the simultaneous substitution in every order exactly when every name is so |
| Templates.NoOpeningBraceIsClean | external_executor.go:29-33 | values without an opening brace meet that condition |
| Templates.SkipOtherHole | external_executor.go:31-33 | replacing one placeholder never touches another |
| Templates.OrderMattersForBracedValues | external_executor.go:31-33 | with a placeholder inside a value the command depends on the map order |
| Partners.PartnerStore.Add | partner_store.go:101-133 | inserts the row with the key's fingerprint and the clock, changing nothing else; fails on an existing id or a bad key |
| Partners.PartnerStore.Update | partner_store.go:243-273 | rewrites an existing row with the key's fingerprint, keeping its creation time, and no other row |
| Partners.PartnerStore.UpdateDIDDocument | partner_store.go:277-304 | rewrites document, key, fingerprint and both URLs of one row, keeping its rights and token |
| Partners.PartnerStore.GetByFingerprint | partner_store.go:157-164 | some enabled partner with the fingerprint, none only if there is none or the query fails |
| Partners.PartnerStore.HasSuppliers | partner_store.go:323-329 | true exactly when the query succeeds and an enabled supplier is enrolled |
| Partners.PartnerStore.IsTrustedSupplier | partner_store.go:334-344 | the id of the partner found, if it may supply; nothing when the lookup fails |
| Partners.PartnerStore.BootstrapPartners | partner_command.go:392-452 | the table after one pass over the configured entries, for any failing lookups and inserts |
| Partners.IndexHoldsOverAllOperations | partner_store.go:101-304 | after any operations every row with a key stores its fingerprint; rows without one store none if no Add supplied one |
| Partners.TrustIsSound | partner_store.go:334-344 | a trusted answer names an enabled supplier holding the key |
| Partners.TrustedWhateverRowIff | partner_store.go:157-178 | trust is independent of the row picked exactly when all enabled holders of the key may supply |
| Partners.TrustDependsOnRow | partner_store.go:334-344 | two partners enrolled with one key, one of which may not supply: both answers are possible |
| Partners.RoutingIsSound | voucher_destination.go:41-101 | a destination has a URL, a partner destination is enabled, receiving, reachable and holds the next owner's key, there is none only if no source offers one, and a failing lookup routes as if there were no partner store |
| Partners.PartnersAreSoundOverAllOperations | partner_store.go:101-344 | trust and routing stay sound after any sequence of table operations in which no Add carries a fingerprint without a key |
| Partners.BootstrapOnlyAdds | partner_command.go:399-404 | existing rows stay; new ids are exactly those with a usable entry that the database accepted |
| Partners.FirstUsableEntryWins | partner_command.go:392-452 | each new id gets its first usable entry that the database accepted: enabled unless it says no, with no right it does not give |
| Partners.BootstrapSettledIff | partner_command.go:389-404 | a pass changes nothing, whatever the database does, exactly when every usable entry is enrolled |
| Partners.BootstrapAgainIff | partner_command.go:389-404 | after a pass, one over any configuration, so also with other key files, changes nothing exactly when each usable entry's id was there before or usable and accepted in the first |
| Partners.BootstrapIsIdempotent | partner_command.go:389-391 | after a pass whose inserts were accepted, a second one over the same entries at any later time changes nothing |

## Left out

- Interleaving of two assignments of one voucher, or of a worker batch with another step on a fetched record: the
  code reads the status and updates the row in separate statements, so no such guarantee is stated.
- Signing by the pipeline (voucher_pipeline.go:118): its result is discarded, so it has no effect to model.
- HTTP, JSON, flags, logging, configuration files, schema migration, shell execution and time-outs: only I/O.
- DID resolution, key parsing, CBOR and PEM details, signatures and the FDOKeyAuth handshake: functions with laws.
- Authentication in the receiver: it can only refuse a reception.
- PullVoucherStore.Save and Delete: nothing in the repository calls them.
- VoucherPushService.ProcessVoucher: the pipeline creates the records.
- Paging through several pull pages: `List` never reads the continuation it hands out.
- The order of a custodian's concatenated serials: SQL leaves it open, so the model keeps the set.
- mapTransmissionStatus, CallerIdentity predicates, token expiry queries: one-branch members.
- Templates.Execute: the substitution is compared for templates whose braces all delimit placeholders, and for names without braces, as all callers have.
- Safety.AtMostOnceIffHolderExcluded: counts a new reception, besides a restore, as ending an assignment; for restores alone see Reassignment.RestoredBetweenIff.
