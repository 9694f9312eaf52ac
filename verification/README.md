# Dandori: the transactional core, verified

Dandori stores issues per workspace in PostgreSQL. Creating an issue writes the issue, an activity
entry, an outbox event and an idempotency record in one transaction; workers lease outbox rows,
publish them over HTTP and mark the outcome; workers share the workspaces among themselves by
partition leases. This project models that core in Dafny and proves what it promises over whole
runs: every interleaving of statements, any number of transactions and workers, aborts at any point.

How it is modelled:

- A table is a map from keys to rows. A statement is one atomic step on the committed tables; a
  transaction collects its own writes and merges them when it commits. A statement that meets a key
  or an id held by another open transaction waits (it leaves the state as it is).
- `ORDER BY key, id LIMIT n` is stated by rank (`Window.dfy`), and shown to be the only set that
  meets the description of a limited scan. `FOR UPDATE SKIP LOCKED` is a set of locked rows.
- Time is an integer number of microseconds read by each step; clocks are unsynchronised unless a
  statement says otherwise. UUIDs are numbers; where the code relies on `Uuid::now_v7` being fresh,
  the run has that as a hypothesis.
- Objects the program updates in place are classes: `OutboxTable`, `IssueTables`, `IdempotencyTable`,
  `PartitionTable`, `OutboxRegistry`, `HttpOutboxPublisher`, `OutboxWorkerService`. Their methods follow the code
  statement by statement and are proved against the functions the theorems about runs use.

| file | contents |
|---|---|
| `Base`, `Window` | shared types; limited ordered scans |
| `Outbox`, `OutboxRuns`, `OutboxFairness` | the lease protocol: statements, safety over runs, waiting times |
| `Issues`, `Fingerprint`, `IssueStore` | issue rows, request fingerprints, the create transaction on its own |
| `System`, `SystemInvariant`, `SystemRefinement`, `SystemHistory`, `SystemOutbox`, `SystemWorker` | concurrent creates, workers and purges: invariant, linearizability, conservation, and the lease protocol and the worker cycles as they run inside |
| `Tenancy` | independence of workspaces |
| `Partition`, `PartitionRuns` | partition leases: statements, exclusivity, shutdown |
| `Publisher`, `Registry` | the circuit breaker; the versioned handler registry |
| `Worker` | one worker's run over its workspaces, with other processes in between |

Findings about the code, each with its proof:

- A failure whose text is longer than 4000 characters (the column check) or contains U+0000 (which
  a `text` column refuses) cannot be recorded, so the row spends no attempt and is never
  dead-lettered while only such failures occur. The text includes the response body of the remote
  side (`OutboxRuns.UnstorableErrorsNeverCount`).
- A legacy fingerprint that fits its column tells a valid request from every other valid one if and
  only if its description does not contain `|description=` and its title does not contain it behind
  a head that is not blank (`Fingerprint.UnambiguousExactly`). One that fits leaves title and
  description thirty characters together and has no milestone (`Fingerprint.StorableIsShort`).
- A step keeps every orderly continuation free of overlapping partition grants if and only if it
  shortens no lease its owner holds (`PartitionRuns.SafeExactly`); one lease length per worker and a
  clock that never goes back are enough for that.
- When a worker's window of workspaces moves, the leases it leaves behind at shutdown are exactly
  the owned ones outside the new window (`PartitionRuns.MovedWindowLeaks`). A release that fails has
  already forgotten its list.
- The breaker's 32-bit failure counter wraps. After a wrap, the failures that leave it below the
  threshold do not renew the open period; the breaker differs from what it is meant to be exactly
  then, when the last failure and the last one before the wrap give different times
  (`Publisher.IntendedExactly`). The bound on requests per window holds of every run exactly up to
  2^32 failures in a row (`Publisher.PlainBoundExactly`), and costs the threshold once more per wrap
  beyond that.
- A create whose commit succeeds may still answer with a database error, when the acknowledgement is
  lost; the same call repeated gives the issue back (`SystemRefinement.RepeatedCallReplays`).

## Model

| member | source | states |
|---|---|---|
| Window.FirstNIsLimitedScan | crates/dandori-store/src/migration_sql.rs:313-317 | the rows of rank below n are a limited scan: at most n, n unless the rows ran out, and every row left out sorts after every row returned |
| Window.LimitedScanIsUnique | crates/dandori-store/src/repositories/outbox.rs:40-60 | no other set of rows meets that description |
| Window.LeftOut | crates/dandori-store/src/repositories/outbox.rs:40-60 | a row left out proves the scan full, and full of rows ahead of it |
| Outbox.OutboxTable.LeaseBatch | crates/dandori-store/src/repositories/outbox.rs:25-102 | fails exactly for a negative limit; otherwise every row handed out is the tenant's, not locked, and due (pending or failed and available by now, or leased with the lease run out), and such a row is left out only when the batch is full of rows before it in (available_at, id); each row then carries the token, the owner and the end of the lease, each message what is stored, attempts and place in the queue are kept, and no other row changes |
| Outbox.CandidatesAreFirstDue | crates/dandori-store/src/repositories/outbox.rs:40-50 | the rows a lease step selects are those, in the columns of the rows |
| Outbox.LeaseTakes | crates/dandori-store/src/repositories/outbox.rs:36-100 | the table step used in the theorems about runs is that lease |
| Outbox.ValidateLeaseTransition | crates/dandori-store/src/repositories/outbox.rs:387-445 | the guard chain accepts exactly a leased row with this token, this owner and an expiry after the caller's clock |
| Outbox.GuardedRowsSingle | crates/dandori-store/src/repositories/outbox.rs:141-175 | the guarded UPDATE reaches the one row exactly when it is the tenant's and the guard chain accepts it, and never another |
| Outbox.OutboxTable.MarkOutboxDelivered | crates/dandori-store/src/repositories/outbox.rs:104-179 | succeeds if and only if the row is the tenant's, leased to the caller under this token, with an end after the caller's clock; then the row alone becomes delivered, published at that clock, with its error and its lease columns cleared and its attempts kept; otherwise nothing changes and the error names the reason, never OutboxUpdateNotSingleRow |
| Outbox.OutboxTable.MarkOutboxFailed | crates/dandori-store/src/repositories/outbox.rs:181-297 | succeeds if and only if the caller holds the row so and the column takes the error text (at most 4000 characters, none of them U+0000); then the row alone has one more attempt (in 32 bits) and this error, and is a dead letter if and only if the failure is terminal or the attempts have come to the budget, and otherwise failed and available again after the backoff; otherwise nothing changes and the error names the reason |
| Outbox.OutboxTable.CleanupOutbox | crates/dandori-store/src/repositories/outbox.rs:299-325 | deletes, and counts, exactly the tenant's rows delivered before the first cutoff and its dead letters last changed before the second |
| OutboxRuns.CompletionHasGrant | crates/dandori-store/src/repositories/outbox.rs:25-102 | a completion that succeeds goes back to a lease that handed out this row under this token, and the row is as that lease left it |
| OutboxRuns.OneCompletionPerGrant | crates/dandori-store/src/repositories/outbox.rs:104-297 | a grant of a row under a token is completed at most once, with clocks reading anything |
| OutboxRuns.StaleHolderIsFenced | crates/dandori-store/src/repositories/outbox.rs:387-445 | after a row is handed out again under another token, no completion under the earlier token ever succeeds |
| OutboxRuns.DeliveredAtMostOnce | crates/dandori-store/src/repositories/outbox.rs:104-179 | a row is marked delivered at most once in any run |
| OutboxRuns.FinishedStays | crates/dandori-store/src/repositories/outbox.rs:40-60 | a finished row, delivered or dead-lettered, never changes until it is purged |
| OutboxRuns.PurgedAfterItsCutoff | crates/dandori-store/src/repositories/outbox.rs:299-325 | a row disappears only by a purge, and after one mark that finished it, by a clock before the cutoff that this purge has for rows finished so |
| OutboxRuns.SnapshotAgrees | crates/dandori-store/src/repositories/outbox.rs:218-224 | when a mark succeeds, the attempts returned by its lease are still the stored ones |
| OutboxRuns.ReachableTableOk | crates/dandori-store/src/repositories/outbox.rs:52-60 | in every reachable state: leased exactly when all four lease columns are set, published_at exactly when delivered, attempts below the largest budget for unfinished rows and never above it |
| OutboxRuns.UnfinishedRowsComeDue | crates/dandori-store/src/repositories/outbox.rs:40-50 | no reachable row is stuck: an unfinished row can be leased exactly from its due time on (the end of its lease, or when it becomes available), a finished one never |
| OutboxRuns.AttemptsCountFailures | crates/dandori-store/src/repositories/outbox.rs:218-285 | attempts is the number of failure marks that succeeded |
| OutboxRuns.UnstorableErrorsNeverCount | crates/dandori-store/src/migration_sql.rs:125 | a row that only meets failures whose texts the column refuses, by length or by U+0000, keeps zero attempts and is never dead-lettered |
| OutboxRuns.FailuresAreSpaced | crates/dandori-store/src/repositories/outbox.rs:257-285 | with a monotone clock, two failure marks of a row are at least as many base backoffs apart as attempts lie between them |
| OutboxRuns.ExhaustingTheBudgetTakesTime | crates/dandori-store/src/repositories/outbox.rs:218-285 | with one budget, a dead letter by a transient failure took exactly budget failures and at least (budget - 1) base backoffs |
| OutboxFairness.BoundedWaiting | crates/dandori-store/src/repositories/outbox.rs:40-60 | a waiting row with k unfinished rows ahead of it, overtaken by j inserts or retries that sort before it, is leased, or completed by its former holder, within (k + j) / batch + 1 lease calls of its tenant, whatever inserts, completions and purges come between |
| OutboxFairness.OnlyABehindClockCompletes | crates/dandori-store/src/repositories/outbox.rs:387-445 | its former holder completes it only with a clock behind the stretch; otherwise its wait ends with a lease |
| OutboxFairness.NothingOvertakes | crates/dandori-app-services/src/service.rs:176 | j is zero when every event of the stretch was sampled within it and no retry falls due before its failure |
| Issues.InsertedRowDecodes | crates/dandori-store/src/repositories/issue.rs:419-463 | the row an insert returns always decodes, to the issue the command describes |
| Issues.ValidatedFitsColumns | crates/dandori-domain/src/command.rs:184-232 | a command that validates, by byte lengths, meets the character length checks of the columns it is stored in |
| Issues.AsciiValidatesExactly | crates/dandori-domain/src/command.rs:184-232 | on ASCII texts, validation is exactly those upper limits and title, key and fingerprint not blank |
| Issues.WordsDecode | crates/dandori-store/src/repositories/issue.rs:436-463 | four words decode to the priorities and four to the states, and no other text decodes |
| Fingerprint.SpellsExactly | crates/dandori-store/src/repositories/issue.rs:473-484 | the printed form of a 128-bit id is the one text of 36 characters whose hyphens stand behind the 8th, 12th, 16th and 20th digit and whose 32 lower-case digits, read digit by digit, give the id |
| Fingerprint.UuidTextInjective | crates/dandori-store/src/repositories/issue.rs:473-484 | the printed form of an id determines the id |
| Fingerprint.MatchesRequestFingerprint | crates/dandori-store/src/repositories/issue.rs:465-471 | a stored fingerprint matches if and only if it is the request's own or its legacy fingerprint; one that starts with "v2:" only by equality |
| Fingerprint.LegacyTextExactly | crates/dandori-store/src/repositories/issue.rs:473-484 | the legacy fingerprint is the one text made of the labels, the spelt ids ("null" for no milestone), the title, the description ("" for none) and the priority's word |
| Fingerprint.MatchesExactly | crates/dandori-store/src/repositories/issue.rs:465-484 | so a stored fingerprint matches exactly when it is the request's own or such a text of the request |
| Fingerprint.LegacyFingerprintDecodes | crates/dandori-store/src/repositories/issue.rs:473-484 | equal legacy fingerprints of titles without the separator mean equal project, milestone, title, description (absent counts as empty) and priority, for any descriptions |
| Fingerprint.NoBarNoSeparator | crates/dandori-store/src/repositories/issue.rs:473-484 | a title without a bar has no separator |
| Fingerprint.StorableIsShort | crates/dandori-store/src/migration_sql.rs:134 | a legacy fingerprint fits its column if and only if the request has no milestone, its title, description and priority have at most 33 characters together (so title and description at most thirty), and neither text contains U+0000 |
| Fingerprint.UnambiguousExactly | crates/dandori-domain/src/command.rs:184-232 | of the valid requests whose legacy fingerprint fits its column, it stands for one valid request alone if and only if the description has no separator and the title has none behind a head that is not blank |
| Fingerprint.TitleCutEarlier | crates/dandori-store/src/repositories/issue.rs:473-484 | otherwise there is another valid request with the same legacy fingerprint: for a title with the separator behind a head that is not blank, the one whose title ends earlier |
| Fingerprint.TitleCutLater | crates/dandori-store/src/repositories/issue.rs:473-484 | and for a description with the separator, the one whose title ends later |
| Fingerprint.BlankHeadIsUnambiguous | crates/dandori-domain/src/command.rs:184-194 | a title that is the separator and one letter more has it and is still unambiguous, because its only other reading has an empty title |
| IssueStore.IssueTables.CreateIssueTransactional | crates/dandori-store/src/repositories/issue.rs:18-69 | one call, failed by the database before any step, at its commit, after it, or not at all: the answer is a database error if and only if the command is another tenant's, the call reaches the step that fails, or it would create a row whose id or event id is taken; every other answer is that of the atomic create, with its effect; the tables change exactly when the answer is a creation or the acknowledgement of one is lost, and then by one creation, a row in each of the four tables |
| IssueStore.MergeCreatesRows | crates/dandori-store/src/repositories/issue.rs:127-292 | the commit of a winning call adds exactly one issue, activity, outbox row and finished record, whose columns are those of the command, the event and the clock sample; the outbox row is pending with no attempts and available from the time of its event |
| IssueStore.CreatedRowsAreAtomic | crates/dandori-store/src/repositories/issue.rs:55-69 | those rows are the atomic creation |
| IssueStore.StoredBranchIsAtomic | crates/dandori-store/src/repositories/issue.rs:341-353 | a call that finds a record answers as the atomic step does, and replay decoding never fails |
| IssueStore.PreconditionIsAtomic | crates/dandori-store/src/repositories/issue.rs:83-125 | a failed precondition answers as the atomic step does, and the key stays free |
| IssueStore.IdempotencyTable.CleanupIdempotency | crates/dandori-store/src/repositories/outbox.rs:327-347 | deletes, and counts, exactly the tenant's records that expire before the cutoff |
| SystemInvariant.AdvanceOk | crates/dandori-store/src/repositories/issue.rs:29-69 | each statement of a transaction keeps its writes and locks in step with the committed tables and apart from every other open transaction, and one that ends either commits a whole creation or changes nothing |
| SystemInvariant.AdvanceExplained | crates/dandori-store/src/repositories/issue.rs:18-69 | a statement whose turn it is waits if and only if another open transaction has first the key, the issue, activity or outbox id, or the event id it needs; it ends its call with a database error if and only if it aborts or, not waiting, would write another tenant's record or a row whose id or event id is taken; every commit answers what the atomic step answers |
| SystemInvariant.WaitsWhenBlocked | crates/dandori-store/src/repositories/issue.rs:300-339 | the waiting part alone, over the peers' phases and writes |
| SystemInvariant.CommitKeepsLocks | crates/dandori-store/src/repositories/issue.rs:300-339 | a commit takes no key or id that another open transaction relies on |
| SystemInvariant.NextKeepsInv | crates/dandori-store/src/repositories/issue.rs:300-374 | every step of every process keeps the invariant |
| SystemInvariant.RunKeepsInv | crates/dandori-store/src/repositories/issue.rs:300-374 | no run commits a "reserving" placeholder or lets two open transactions hold one key |
| SystemRefinement.NextRefines | crates/dandori-store/src/repositories/issue.rs:18-69 | each step is a legal step of one atomic map from key to fingerprint and issue, or invisible to it; a call answers exactly what the atomic step answers, unless it was aborted, refused for an id or event id already taken or another tenant's workspace, or the acknowledgement of its commit was lost: then, and only then, a database error |
| SystemRefinement.RepeatedCallReplays | crates/dandori-store/src/repositories/issue.rs:341-353 | after a creation that took effect, whatever its caller was told and whatever calls come between, a call with its key and fingerprint that is not itself failed by the database gives its issue back and changes nothing until the key is purged |
| SystemRefinement.RunRefinesAtomicMap | crates/dandori-store/src/repositories/issue.rs:18-69 | linearizability: the calls of any interleaving, aborted at any statement or with the acknowledgement of their commit lost, are in the order they finish a legal history of the atomic map, and the committed records are what that history leaves |
| SystemRefinement.UnhinderedCallRunsThrough | crates/dandori-store/src/repositories/issue.rs:18-69 | from any reachable state, a transaction that no other one has anything first of and whose ids are free runs its statements in order to the answer of the atomic step, and leaves the records of that step |
| SystemRefinement.AbortLeavesNothing | crates/dandori-store/src/repositories/issue.rs:18-69 | an open transaction may abort before any statement; its call gets a database error and the tables stay as they are |
| SystemHistory.NoLostEvents | crates/dandori-store/src/repositories/issue.rs:55-64 | over any run every issue has exactly one activity and one event, still in the outbox or purged as delivered or dead-lettered |
| SystemHistory.CreateKeepsEvents | crates/dandori-store/src/repositories/issue.rs:190-292 | a statement of a create keeps that, whether or not it commits |
| SystemHistory.KeyReuseIsBounded | crates/dandori-store/src/repositories/outbox.rs:327-347 | the creations of a key are exactly the purges of its record, plus one while it is recorded |
| SystemHistory.OpenHasBegun | crates/dandori-store/src/repositories/issue.rs:25-26 | every open transaction began at an earlier step, which took its clock sample, and has been open since |
| SystemHistory.ExpiresInSevenDays | crates/dandori-store/src/repositories/issue.rs:25-26 | its record expires seven days after that sample, to the end |
| SystemHistory.SecondCreationIsLate | crates/dandori-store/src/repositories/issue.rs:25-26 | with a monotone clock and a bounded retention, when a key creates twice the later commit reads a clock more than seven days and the retention past the sample the earlier creation took when it began |
| SystemOutbox.OutboxIsProtocolRun | crates/dandori-store/src/repositories/issue.rs:226-292 | the outbox of the whole system goes through one run of the lease protocol, commits of creations being its inserts, with fresh lease tokens |
| SystemOutbox.TraceInsertsAreFresh | crates/dandori-store/src/repositories/issue.rs:226-292 | an outbox id drawn by one statement only is inserted at most once in that run, even after its row was purged |
| SystemOutbox.SystemRunsTheProtocol | crates/dandori-store/src/repositories/outbox.rs:25-297 | so from an empty database every theorem about runs of the lease protocol (fencing, delivered at most once, attempts, spacing) holds of the system's outbox |
| SystemWorker.LogPublishesFirst | crates/dandori-app-services/src/worker/service.rs:304-333 | in what a worker cycle does under its token, whatever precedes a delivery mark holds a publish of that row that returned Ok |
| SystemWorker.DeliveredWasPublished | crates/dandori-app-services/src/worker/service.rs:304-361 | in any run of the whole system whose marks are made by worker cycles, finished or under way, every delivered row was delivered by one mark that held it, and a publish of it under the token of that mark had returned Ok before |
| SystemWorker.FailureMarkFollows | crates/dandori-app-services/src/worker/service.rs:362-380 | in such a run every failure mark carries the budget of its worker's configuration and a backoff of at least the configured seconds |
| SystemWorker.RetriesAreAsConfigured | crates/dandori-app-services/src/worker/service.rs:362-380 | so the hypotheses of the theorems about retries (one budget, a least backoff) hold of the run's outbox |
| Tenancy.OwnStep | crates/dandori-store/src/repositories/outbox.rs:40-60 | an outbox statement does to its tenant's rows what it does when they are the whole table |
| Tenancy.OtherTenantsStep | crates/dandori-store/src/migration_sql.rs:226-228 | an outbox statement leaves every other tenant's rows as they are |
| Tenancy.AdvanceAgrees | crates/dandori-store/src/migration_sql.rs:210-232 | a create statement has the same outcome whether or not the other tenants' rows and transactions exist |
| Tenancy.TenantsAreIndependent | crates/dandori-store/src/migration_sql.rs:202-232 | for any run in which no id is drawn for two tenants, one tenant's rows and open transactions are those of the run of its own steps alone |
| Partition.NewRange | crates/dandori-store/src/repositories/partition.rs:19-32 | accepts exactly ordered bounds within the bucket space |
| Partition.PartitionTable.AcquirePartitions | crates/dandori-store/src/repositories/partition.rs:60-105 | a workspace is taken if and only if its bucket lies between the bounds, both included, fewer than the limit of those workspaces come before it in (bucket, id), and neither the snapshot nor the guard finds it under a live lease of another; all of it is then leased to the caller until the given time and no other row changes; with a current snapshot and room for every workspace of the buckets, none of them is left without a live lease |
| Partition.WindowByBuckets | crates/dandori-store/src/migration_sql.rs:313-317 | the scan lists exactly the workspaces with a bucket between the bounds, both included, that fewer than the limit come before |
| Partition.PartitionTable.RenewPartitions | crates/dandori-store/src/repositories/partition.rs:110-137 | renews exactly the named rows the caller still holds |
| Partition.PartitionTable.ReleasePartitions | crates/dandori-store/src/repositories/partition.rs:141-161 | deletes exactly the named rows the caller owns and nobody else's |
| Partition.WholeRange | crates/dandori-store/src/migration_sql.rs:313-317 | a scan with room for every workspace whose bucket lies between the bounds lists them all |
| PartitionRuns.PartitionsAreExclusive | crates/dandori-store/src/repositories/partition.rs:60-161 | with a monotone clock and no holder shortening its lease, no instant of a workspace is granted to two owners, grants being cut at their owner's release |
| PartitionRuns.FixedLengthsAreExclusive | crates/dandori-app-services/src/worker/service.rs:280-281 | one lease length per worker is enough for that |
| PartitionRuns.SafeExactly | crates/dandori-store/src/repositories/partition.rs:86-98 | a step leaves every orderly continuation exclusive if and only if it shortens no lease that its caller holds |
| PartitionRuns.ExclusiveExactly | crates/dandori-store/src/repositories/partition.rs:60-161 | so a run from the empty table with a monotone clock is safe at every state it goes through if and only if no holder shortens its lease in it |
| PartitionRuns.TakeoverOverlaps | crates/dandori-store/src/repositories/partition.rs:86-98 | once a holder has shortened a lease, any other worker can take the workspace at an instant granted to both |
| PartitionRuns.StepSeesOwn | crates/dandori-store/src/repositories/partition.rs:60-105 | whatever others write between the snapshot of a worker's acquire and its guard, and whatever its windows, the snapshot shows every lease the worker owns |
| PartitionRuns.RememberedCoversOwned | crates/dandori-app-services/src/worker/service.rs:275-302 | with one worker per id and a fixed window, after its first acquire the remembered list covers every lease it owns, whatever others do, between the snapshots of its acquires and their writes too |
| PartitionRuns.ShutdownLeavesNothing | crates/dandori-app-services/src/worker/service.rs:259-273 | so its release leaves none of its leases behind and takes nobody else's |
| PartitionRuns.MovedWindowLeaks | crates/dandori-app-services/src/worker/service.rs:292-301 | exactly which leases stay behind when the window has moved |
| Registry.StableSortSortsStably | crates/dandori-app-services/src/worker/registry.rs:57-58 | the sort puts versions in order and keeps the registration order within each version |
| Registry.LastAtMost | crates/dandori-app-services/src/worker/registry.rs:70-73 | the reverse scan finds the last entry at or below the version, or there is none |
| Registry.ScanResolves | crates/dandori-app-services/src/worker/registry.rs:68-73 | the vector scan alone gives the latest registration of the greatest usable version |
| Registry.ResolvesIsUnique | crates/dandori-app-services/src/worker/registry.rs:64-74 | there is only one such answer |
| Registry.OutboxRegistry.Register | crates/dandori-app-services/src/worker/registry.rs:51-61 | both indexes stay in agreement with the list of registrations, repeated versions included |
| Registry.OutboxRegistry.Resolve | crates/dandori-app-services/src/worker/registry.rs:64-74 | the answer is the latest registration among those with the greatest version at or below the asked one; the exact-match index never changes what the scan would answer |
| Registry.OutboxRegistry.Dispatch | crates/dandori-app-services/src/worker/registry.rs:76-98 | a message is refused as unsupported exactly when no handler of its type covers its effective schema version |
| Publisher.HttpOutboxPublisher.PublishIssueCreated | crates/dandori-app-services/src/worker/publish.rs:145-201 | in sequential use a request goes out exactly when the open period is over; it succeeds exactly with a status of the 200s and fails transiently exactly without one or in the 500s; an answered request clears both counters, a transient failure adds one (in 32 bits) and at the threshold opens the breaker for the cooldown; and both stay the fold of the history, however long |
| Publisher.AfterFailure | crates/dandori-app-services/src/worker/publish.rs:125-140 | a failure makes the counters the fold of the longer history: the trailing transient failures modulo 2^32, and the cooldown after the last of them at which that reading was at the threshold or above |
| Publisher.AfterAnswer | crates/dandori-app-services/src/worker/publish.rs:118-123 | any answered request, accepted or refused as a client error, ends the trailing run |
| Publisher.WrapForgetsFailures | crates/dandori-app-services/src/worker/publish.rs:129-133 | no failure that leaves the wrapped counter below the threshold renews the open period, though each is meant to |
| Publisher.IntendedExactly | crates/dandori-app-services/src/worker/publish.rs:72-76 | for every history, the breaker is open for the cooldown after the last of at least threshold consecutive failures, as documented, unless the counter has wrapped to a reading below the threshold and the last failure and the last one before the wrap give different times |
| Publisher.RemoteCallsAreBounded | crates/dandori-app-services/src/worker/publish.rs:113-140 | while the downstream keeps failing, a window of T seconds sees at most threshold + T / cooldown requests, and the threshold once more for each wrap of the counter before the last of them |
| Publisher.WrapBreaksTheBound | crates/dandori-app-services/src/worker/publish.rs:129-133 | a run of 2^32 + 1 failures with one request more than threshold + T / cooldown in its window |
| Publisher.PlainBoundExactly | crates/dandori-app-services/src/worker/publish.rs:113-140 | threshold + T / cooldown bounds every window of every run with at most N failures in a row if and only if N is at most 2^32 |
| Publisher.RetryBackoffWithJitter | crates/dandori-app-services/src/worker/publish.rs:208-216 | the sampled delay is never below the base, strictly less than the jitter bound above it, and the base when there is no jitter |
| Worker.DeadLettersLeaveDeadRow | crates/dandori-store/src/repositories/outbox.rs:218-285 | a failure mark is tallied as a dead letter exactly when the row it leaves is one |
| Worker.FailedTally | crates/dandori-app-services/src/worker/service.rs:386-390 | the verdict the worker draws from its attempts snapshot is the store's |
| Worker.ForeignKeepsSnapshots | crates/dandori-store/src/repositories/outbox.rs:387-445 | statements of others keep the snapshots true of the rows still held |
| Worker.MarkIsAsked | crates/dandori-app-services/src/worker/service.rs:362-380 | the mark of the theorems about cycles and runs is that call |
| Worker.OutboxWorkerService.ApplyPublishOutcome | crates/dandori-app-services/src/worker/service.rs:335-405 | a success makes exactly the store call its outcome asks for (delivered, or failed with the kind and message as the text, transient exactly for the transient kind, the configured budget, and a backoff between the configured seconds and the jitter above them), moves one counter, and the counters move as the rows did, with any statements of others in between; a failure commits nothing of its own and means that the database failed or the call was turned away |
| Worker.OutboxWorkerService.PublishAll | crates/dandori-app-services/src/worker/service.rs:304-326 | every leased message is answered exactly once, in any order, and the publishes are exactly those that returned Ok |
| Worker.OutboxWorkerService.ProcessLeased | crates/dandori-app-services/src/worker/service.rs:304-333 | every publish comes before every mark; for any completion order every message is marked once, by its own call and with the mark its outcome and the configuration ask for, and its row is completed; it stops only where the database fails the call or a message not yet marked is turned away |
| Worker.OutboxWorkerService.CleanUp | crates/dandori-app-services/src/worker/service.rs:229-251 | purges, by its clock readings less the configured retentions of delivered rows, of dead letters and of key records, the tenant's finished rows and then its expired key records, and reports how many of each went; a failure leaves the key records alone |
| Worker.CycleEnds | crates/dandori-app-services/src/worker/service.rs:207-254 | the stretches of a cycle join: what its marks and purges committed is what its report counts |
| Worker.OutboxWorkerService.RunTenantCycle | crates/dandori-app-services/src/worker/service.rs:207-254 | the messages are what its own lease handed out under its token; a cycle comes through only if the database fails none of its calls, and then completed every one of them under that token, reports leased = delivered + failed, and counts the rows delivered, failed, dead-lettered and purged and the key records purged; one that fails did so at its lease, at the mark of a message not yet marked that the database failed or turned away, or, after all marks, at a purge the database failed; the lease, the publishes and the marks were done in this order, each mark as its outcome and the configuration ask |
| Worker.OutboxWorkerService.AcquireWorkspaces | crates/dandori-app-services/src/worker/service.rs:275-302 | a configured list is served as it is; otherwise, for every snapshot, the call is the acquire of the theorems about shutdown, everything returned is leased to this worker and remembered, and an empty result or a failure keeps the old list |
| Worker.OutboxWorkerService.ReleasePartitions | crates/dandori-app-services/src/worker/service.rs:259-273 | is the release of the partition theorems; a failing store call has already emptied the remembered list |
| Worker.OutboxWorkerService.RunTenants | crates/dandori-app-services/src/worker/service.rs:155-172 | every assigned tenant has one cycle, each such a cycle with its lease under this worker and its own token, one after another over the table, and the outcomes are theirs |
| Worker.OutcomesTotal | crates/dandori-app-services/src/worker/service.rs:173-191 | the sum of the outcomes is the rows handed out to, completed and purged by the cycles that came through, with leased = delivered + failed and dead-lettered at most failed, and counts the failed cycles |
| Worker.OutboxWorkerService.AddUp | crates/dandori-app-services/src/worker/service.rs:173-191 | the loop over the outcomes computes that sum |
| Worker.OutboxWorkerService.RunOnce | crates/dandori-app-services/src/worker/service.rs:146-205 | the tenants served are the configured ones or, for every snapshot of candidates, exactly those the acquire took, all leased to this worker; each had its cycle and the report is what those cycles did |

## Left out

- OutboxFairness.BoundedWaiting: counts the lease calls that ask for at least `batch` and do not find the row locked, in a stretch that holds the clock readings of the tenant's lease calls and is no longer than their leases; a call that skips the locked row, as the code does, does not count.
- OutboxRuns.ExhaustingTheBudgetTakesTime: bounds the time from the row's first failure mark, not from its creation.
- SystemHistory.SecondCreationIsLate: a purge uses a retention of at least the one named; the sample itself may be off the clock of the commits, so it says nothing of the time between the commits.
- Publisher.RemoteCallsAreBounded: the window lies far enough from the ends of the 64-bit range for the cooldown to be added.
- Publisher.HttpOutboxPublisher.PublishIssueCreated: calls one after another; concurrent calls interleave the atomic counter operations and do not keep the fold. The wrap is that of a release build; a build with overflow checks panics there.
- Worker.OutboxWorkerService.RunTenants: the tenants' cycles run one after another in any order, each with any statements of other processes between its own; two cycles of one run interleaving is covered only as such statements, which must be foreign to the cycle's token.
- Worker.OutboxWorkerService.ProcessLeased: the publish outcome is a function of the message; when each publish happens is not modelled, only that it comes before its mark, so a row can be published more than once (delivery is at least once).
- Worker.OutboxWorkerService.RunTenantCycle: a cycle that fails half-way has committed marks that no report counts; the contract says what it did and where it stopped, not a report.
- Worker.OutboxWorkerService.CleanUp: the key records are those the world leaves when the purge comes; how they got there is the part of the `System` modules.
- Worker.OutboxWorkerService.ApplyPublishOutcome: a store call of the worker that fails has changed nothing; one that commits and loses its acknowledgement is modelled for the create only.
- SystemWorker.DeliveredWasPublished: that the marks of a run are made by worker cycles is a hypothesis on the run; each cycle is one that `RunTenantCycle` proves, and other programs writing to the table are not modelled.
- Tenancy.TenantsAreIndependent: ids drawn for two tenants are excluded by hypothesis; with a shared id the unique constraints couple the tenants, and waiting is untimed. Partition leases are shared by design.
- PartitionRuns.FixedLengthsAreExclusive: says nothing about coverage; a window longer than the limit leaves workspaces out, because the limit applies before the held ones are filtered.
- Publishing exactly once, and a row always reaching delivered or dead letter: the code promises neither; taking over an expired lease spends no attempt.
- The columns the model does not carry: payloads of events and activities, aggregate type, occurred-at text forms; the decoding of a stored response is an assumed round trip with serde_json.
- The SHA-256 of a "v2:" fingerprint: an opaque string.
- PostgreSQL itself (snapshots, row locks, ON CONFLICT waiting, policies): stated as the rules of the steps. Deadlocks show as a database error of a call.
- Reading issues and schema migrations; the refusal of a request that fails validation, whose conditions appear as the valid requests of the fingerprint theorems and in `Issues.ValidatedFitsColumns`.
- Integer widths other than the attempts column, the breaker counter and its saturating time: ids, times and counts are unbounded.
- REST and MCP transports, authentication, the policy matrix, configuration parsing, logging and metrics: no part of the core state machines.
- Graph, workflow, orchestrator and GitHub crates: validators only.
