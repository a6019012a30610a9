# The agentic control plane, as a verified model

This project models the four connected state machines of the Go API and the strings and maps that
cross its borders, and proves what their comments promise.

* **Billing.** An at-least-once ledger feeds an outbox that holds one row per entry id. Reconcile
  passes charge a backend under idempotency keys, count failures and dead-letter rows. `Billing`
  has the tables and methods, `BillingRuns` the step machine (every SQL statement and every backend
  call is a step; UPDATEs fail, the process crashes between emit and mark, records arrive during a
  pass), `ExactlyOnce`, `BillingPasses`, `Charges` and `Drift` the results: how often a row is
  charged, what a pass does, and what rows and charges carry. `Recording`, `Subscribing` and `Catalog`
  are its producers and its dispatcher.
* **Audit.** `Audit` is the hash chain, `ColdTier` the append to both tiers, `TamperDetect` the
  paged scanner, `TamperReport` what its report means, `TamperReplies` which replies of the store it
  stands for, `CrossTier` the agreement of all three over whole runs.
* **Queue, worker, jobs.** `Queue`, `Jobs`, `LedgerTail` and `Workers` are the four components;
  `Leases`, `JobRuns`, `LedgerPolls` and `Fleet` their interleavings, statement by statement, with any
  number of workers, pollers and customers; `FleetLeases` says whose a lease is, and `WorkerRuns`
  shows an undisturbed tick of the worker to be a run of the fleet. `BillRows` and `Outcomes` say what
  an entry of the ledger becomes: a row of the outbox, and the columns of the job.
* **Round trips.** `Meters` is the usage map written in Go and read in TypeScript, `Base64` and
  `Credentials` the token and the Argon2 verifier string.

Tables are sequences or maps of rows in classes. Hashes, JSON, calendar formatting, Argon2 and
prices are function parameters; where a result needs a property of them (no collision among the
rows at hand, a hash that is never empty and has no slash, a timestamp format that is injective and
has two colons) the lemma asks for it. Clocks, random ids, failures of calls and of statements, and
the answers of the provider are inputs, so that the results hold for all of them.

## What turned out to be conditional

* The idempotency key is the tenant id, a colon and the entry id. Two rows of different tenants can
  share a key exactly when one tenant id, closed by a colon, begins the other (`CollisionIff`); then
  both rows can end up billed with one never charged (`SharedTagLosesACharge`). Exactly-once
  charging holds over a set of tenants if and only if that never happens (`ExactlyOnceIff`); ids
  without a colon are safe (`PlainTenantsAreApart`).
* Metered and one-shot charges have keys and logs of their own. Over such tenants, charging is
  exactly once if and only if no SKU may get both kinds of plan in the course of a run (`KindsIff`);
  a registry that moves a SKU from a metered model to per_job_fixed at a restart can charge a row
  twice (`RestartDoubles`, `EditChargesTwice`).
* Spent ids stay visible: the detector counts a gap if and only if a rollback lies between two
  inserted rows (`GapsSeenIff`), and no pass is ever clean again (`GapIsForever`).
* Verify does not see an edit of the last row whose hash was recomputed, nor a removed tail
  (`RehashedEditIsCaughtNext`, `SubtableVerifiesIff`).
* Acknowledged means terminal if and only if a ledger poller is wired (`AckedIsDoneIff`).
* A lease belongs to one worker if and only if no two workers share a claim token (`LeaseIsOwnIff`);
  the default configuration gives every worker the same one (api/internal/dispatcher/worker.go:95-103).
* A backfill that was cut short leaves a table that another backfill does not repair
  (`BackfillVerifiesIff`).
* A rewritten hot table can at most hide a cut tail from the detector, if its last row has a positive
  id; rows without one are never scanned (`RewriteSeenIff`, `UnscannedIsClean`).
* A SKU named `__proto__` is lost from the dashboard's table, since assigning that name sets the
  prototype of the object (`Meters.RoundTrip`).
* The verifier decoder never looks at the text before the first `$` (`LeadIgnored`), and accepts signs,
  spaces, leading zeros, trailing text, line breaks and spare bits that it would not print
  (`EncodeDecodeVerifierIff`).
* HEAD-first checking is as good as GET-and-rehash only if ETags do not collide
  (`FastDiffersIff`).

## Model

| member | source | states |
|---|---|---|
| Billing.DeadLetterThreshold | api/internal/billing/billing.go:226-233 | A positive integer in the environment is the threshold; anything else gives 10. So it is always at least 1. |
| Billing.FakeBackend.EmitUsage | api/internal/billing/billing.go:564-580 | The call log grows by the record unless a record with the same non-empty key is there already. |
| Billing.FakeBackend.EmitOneShot | api/internal/billing/billing.go:594-615 | The same for one-shot charges, with a zero quantity stored as 1. |
| Billing.Service.Record | api/internal/billing/billing.go:249-271 | Accepts complete bill events only, one row per entry id, and reports exactly which events it rejects; a rejected or repeated event leaves the table alone. |
| Billing.Service.RecordFailure | api/internal/billing/billing.go:404-429 | Only the failed row changes: count plus one, error cut to 500 characters, and the dead-letter stamp exactly when the count reaches the threshold. |
| Billing.Service.Call | api/internal/billing/billing.go:347-372 | One backend call under a stable key: what reaches the provider and what the pass sees, for lost requests and lost replies too. Which fields a charge carries is `Charges.ChargesCarryPlans`, and when one is made `Charges.EmitAddsIff`. |
| Billing.Service.Reconcile | api/internal/billing/billing.go:290-395 | Without a backend, or if the pending rows cannot be read, an error and no change; otherwise one flush of the waiting rows in id order, and the count of rows emitted and marked. A reading that breaks off is flushed as a shorter pass, without an error. |
| BillingRuns.PendingIsSnapshot | api/internal/billing/billing.go:296-325 | The selected rows are rows of the table, waiting, in strictly ascending id order. |
| BillingRuns.RecordKeeps | api/internal/billing/billing.go:249-271 | Recording in the middle of a pass keeps the pipeline invariant: the snapshot of the pass stays valid and every charge stays backed by a row. |
| BillingRuns.AttemptKeeps | api/internal/billing/billing.go:327-372 | An attempt, whatever happens to the call, keeps it: keys stay unique, every charge has a row with the same units, and a success means charged. |
| BillingRuns.WriteKeeps | api/internal/billing/billing.go:373-429 | The UPDATE after an attempt, successful or not, keeps it: a row marked billed has been charged. |
| BillingRuns.RunKeeps | api/internal/billing/billing.go:249-429 | The invariant holds in every run of records, passes, failed UPDATEs and crashes between emit and mark. |
| BillingRuns.RunSnapshotted | api/internal/billing/billing.go:296-429 | Whatever dispatcher and backend do, a pass in flight holds its waiting rows exactly as the table has them. |
| Recording.FirstWins | api/internal/billing/billing.go:249-271 | After any deliveries over any table, in any order and multiplicity, the old rows stay and there is exactly one new row per new entry id that landed, with the payload that landed first. |
| Recording.RedeliveryAddsNothing | api/internal/billing/billing.go:242-271 | Delivering again what is in the table changes nothing. |
| Recording.PayloadsAreLanded | api/internal/billing/billing.go:249-271 | When equal ids carry equal payloads, the rows are exactly the payloads that landed. |
| Recording.OrderAndMultiplicityIrrelevant | api/internal/billing/billing.go:242-271 | Two delivery histories of the same payloads leave the same set of rows and the same number of them. |
| ExactlyOnce.CollisionIff | api/internal/billing/billing.go:327-372 | Two tenant ids can produce one idempotency key if and only if one of them, closed by a colon, begins the other. |
| ExactlyOnce.PlainTenantsAreApart | api/internal/billing/billing.go:327-372 | Tenant ids without a colon meet the condition of the next rows. |
| ExactlyOnce.ApartGivesDistinctTags | api/internal/billing/billing.go:327-372 | When no tenant id, closed by a colon, begins another, distinct entry ids give distinct idempotency keys. |
| ExactlyOnce.ChargesExactlyOnce | api/internal/billing/billing.go:249-395 | Over every run of such tenants in which no SKU gets both metered and one-shot plans, each row has at most one charge, a billed row exactly one with its recorded units, a one-shot of 0 counting as 1 (none if only skip plans are possible), and no charge lacks a row. |
| ExactlyOnce.ExactlyOnceIff | api/internal/billing/billing.go:249-395 | With one way of charging each SKU, charging is exactly once in all runs over a set of tenants if and only if no tenant id of the set, closed by a colon, begins another. |
| ExactlyOnce.KindsIff | api/internal/billing/billing.go:327-372 | Over tenants that are apart, charging is exactly once in all runs if and only if no SKU may get both a metered and a one-shot plan in the course of a run. |
| ExactlyOnce.RestartDoubles | api/internal/billing/billing.go:327-391 | The failing run, step by step: a metered emit, a crash before the UPDATE, and after the restart a one-shot plan for the same row leave one billed row with two charges, since the two kinds have keys and logs of their own. |
| ExactlyOnce.PayloadsAreFirstRecorded | api/internal/billing/billing.go:249-429 | Passes, failures and crashes never touch a payload: the table equals, payload by payload, what the deliveries alone would leave. |
| ExactlyOnce.FirstRecordedWins | api/internal/billing/billing.go:249-429 | So every row of every run carries what was first recorded under its id. |
| Charges.RowsAreTheLedger | api/internal/billing/billing.go:249-271 | In every run the outbox is what was recorded: a row for each id of a complete bill whose INSERT got through, with tenant, task, SKU, meter, units and time as first recorded, the clock standing in for a missing time. |
| Charges.ChargesCarryPlans | api/internal/billing/billing.go:327-372 | In every run, whatever the dispatcher answers, each charge was planned for its row: a usage charge has the row's tenant, SKU, units and time and the plan's meter, or the row's where the plan has none; a one-shot has the plan's price, description and quantity. Keys are spelled out. |
| Charges.EmitAddsIff | api/internal/billing/billing.go:345-372 | A call makes a charge exactly if the plan is no skip, the request is not lost and the provider does not know the key; the pass sees success exactly for a skip or an undisturbed call. |
| Charges.UnwiredIsMetered | api/internal/billing/billing.go:338-372 | Without a dispatcher every row is charged its own units under its own meter, and never by one-shot. |
| Charges.RowIsWritten | api/internal/billing/billing.go:373-429 | What a pass writes to the row it attempted, and to no other: the time billed, or one failure more, the error of plan or call cut to 500 characters, the time, and the dead-letter stamp from the threshold on. |
| ExactlyOnce.EveryRowChargedIff | api/internal/billing/billing.go:290-395 | Once every row of a metered outbox is billed, the provider holds one charge a row if and only if no two rows share a key; otherwise fewer. |
| ExactlyOnce.SharedTagLosesACharge | api/internal/billing/billing.go:327-372 | Any two complete events with one key and different entry ids have a run, given step by step, in which both rows are billed and one was never charged. |
| Catalog.CatalogIsHonest | api/internal/catalog/dispatcher.go:30-59 | Every plan of the catalog is of a kind that some registry loaded during the run gives the SKU, and a one-shot plan bills the recorded units, whatever prices are loaded. |
| Catalog.DispatchesIff | api/internal/catalog/dispatcher.go:30-59 | The catalog has a plan exactly for a known SKU of a metered or subscription model, or of per_job_fixed if the event names a tier that has a price. |
| Catalog.ModelsGiveOneCharge | api/internal/catalog/dispatcher.go:30-59 | No SKU can get plans of both charging kinds if and only if none moves between per_job_fixed and the other pricing models from one registry to another. |
| Catalog.CatalogChargesOnce | api/internal/catalog/dispatcher.go:30-59 | Exactly-once charging with the catalog wired in, prices and registry being edited between retries, if no SKU moves between per_job_fixed and the other models. |
| Catalog.CatalogPrices | api/internal/catalog/dispatcher.go:30-59 | Over every run with the catalog: each usage charge is under the billing meter of its SKU, or the row's own where it has none, and each one-shot at the price filed under the name of its SKU and the tier of its row, for the units of the row. |
| Catalog.EditChargesTwice | api/internal/catalog/dispatcher.go:30-59 | If a SKU does move from a metered model to per_job_fixed at a restart, any complete bill event for it, dispatchable under both, has a run that charges its row twice. |
| BillingPasses.PassIsPerRow | api/internal/billing/billing.go:290-395 | Flushing the first n rows puts each of them through its own step and leaves the rest untouched. |
| BillingPasses.WholePassIsPerRow | api/internal/billing/billing.go:290-395 | Poison-row isolation: a pass is a per-row map, the identity on billed and dead rows, so no row reaches another. |
| BillingPasses.CutPassIsPerRow | api/internal/billing/billing.go:305-395 | A pass whose reading broke off is that same per-row map over the table up to some row, and the identity on the rest. |
| BillingPasses.PassCountsNewlyBilled | api/internal/billing/billing.go:286-395 | The count a pass returns is the number of rows it turned from unbilled to billed. |
| BillingPasses.CallsInOrder | api/internal/billing/billing.go:327-372 | The logs of both kinds after a pass are the old ones plus the calls of the rows, deduplicated, in row order. |
| BillingPasses.CallsFollowIds | api/internal/billing/billing.go:296-372 | That order is ascending row id. |
| BillingPasses.PassIsARun | api/internal/billing/billing.go:290-395 | One call of Reconcile, its reading cut off or not, is a run of the step machine, so what holds of every run holds of it. |
| BillingPasses.DeadLettersAtThreshold | api/internal/billing/billing.go:273-429 | In every run under one threshold no row is both billed and dead-lettered, and a row is dead-lettered exactly when its failure count is the threshold. |
| BillingPasses.EachPassCounts | api/internal/billing/billing.go:290-429 | After k passes with working writes every row is settled or has failed at least k times. |
| BillingPasses.Quiesces | api/internal/billing/billing.go:273-429 | From any reachable state, at most threshold many passes with working writes settle every row, whatever the dispatcher and the backend do. |
| BillingPasses.BoundIsTight | api/internal/billing/billing.go:273-429 | With the provider down, any fewer passes leave every fresh row waiting. |
| Drift.Conserved | api/internal/billing/billing.go:512-525 | A tenant's period sum is the units charged plus the units of rows not charged yet. |
| Drift.DriftsIff | api/internal/billing/reconciler.go:109-125 | The alert condition is 200 times the gap exceeding max(ledger, 1), in whole numbers. |
| Drift.ReconcilerRun | api/internal/billing/reconciler.go:65-107 | The daily loop: reports, alerts and the early stop on a failed drift alert or an empty tenant id, as a fold over the tenants. |
| Drift.PeriodSumIs | api/internal/billing/billing.go:512-525 | The period sum, over rows of this tenant, from the start of the period to before its end, in the fields of the rows. |
| Drift.ChargedSumIs | api/internal/billing/reconciler.go:65-107 | The sum of what the provider has charged, by the same bounds, in the fields of the charges. |
| Drift.PeriodsAddUp | api/internal/billing/billing.go:512-525 | Adjacent periods neither share nor lose a row. |
| Drift.StopsIff | api/internal/billing/reconciler.go:65-107 | The run stops exactly at a tenant without an id or one that drifts and whose alert fails; otherwise every tenant is reported with both sums, or its failed report has been alerted. |
| Drift.EveryTenantReported | api/internal/billing/reconciler.go:65-107 | When reporter and alerter answer, each tenant is reported once in order and the alerts are those of the drifting reports. |
| Drift.AlertsMeasureUncharged | api/internal/billing/reconciler.go:65-125 | Against any reachable metered pipeline every report satisfies the conservation law, and it alerts exactly when 200 times the uncharged units exceed max(ledger, 1). |
| Drift.FlushedIsSilent | api/internal/billing/reconciler.go:65-125 | Against any reachable metered pipeline no report and no alert of the loop accuses a tenant whose rows of the period are all billed. |
| Subscribing.Subscriber.Run | api/internal/billing/subscriber.go:53-99 | The loop over transient Next, Record and Ack failures, cancellation and stop: outbox, acknowledged ids and return value. |
| Subscribing.AckedIsRecorded | api/internal/billing/subscriber.go:84-97 | In every run, with restarts, an acknowledged bill event has its outbox row for good. |
| Subscribing.AcksIff | api/internal/billing/subscriber.go:53-99 | A turn acknowledges its event exactly if the loop is running, the Ack gets through, and the event is no bill or is a complete one whose INSERT got through. |
| Subscribing.EndingIff | api/internal/billing/subscriber.go:53-70 | The loop returns an error exactly if a cancellation comes before any stop. |
| Subscribing.SettledTablesAgree | api/internal/billing/subscriber.go:53-99 | Once everything recorded is acknowledged, the table is the set of acknowledged bills, whatever the delivery order, duplicates and failures. |
| Audit.Verify | api/internal/audit/audit.go:465-490 | No error if and only if every row follows its predecessor and carries the digest of its encoded content and predecessor; otherwise the id of the first row that does not. |
| Audit.VerifiesIff | api/internal/audit/audit.go:465-519 | A table verifies if and only if each row carries the chain hashes of the contents before it and up to it. |
| Audit.SharedHashSharedPast | api/internal/audit/audit.go:465-519 | One hash shared by two verifying tables means the same position and the same past. |
| Audit.SameLastHashSameLog | api/internal/audit/audit.go:465-519 | Two verifying logs have one final hash if and only if they are the same log. |
| Audit.DivergenceIsForever | api/internal/audit/audit.go:465-519 | Once two verifying logs differ in a row, no later hash of one occurs in the other. |
| Audit.SubtableVerifiesIff | api/internal/audit/audit.go:465-490 | Deleting rows of a verifying log leaves a verifying one if and only if only the tail went. |
| Audit.EditIsCaught | api/internal/audit/audit.go:465-490 | New content under the old hashes, in whatever field, makes Verify stop at exactly that row, if no two of the values hashed collide under encoder and digest. |
| Audit.RehashedEditIsCaughtNext | api/internal/audit/audit.go:465-490 | With the hash recomputed it stops at the next row; an edit of the last row goes unseen. |
| Audit.AppendKeepsVerifying | api/internal/audit/audit.go:345-366 | Appending keeps a verifying log verifying. |
| Audit.HashesDistinct | api/internal/audit/audit.go:494-519 | In a verifying log all hashes are distinct. |
| Audit.BackfillChain | api/internal/audit/audit.go:234-287 | Chains the unhashed rows to one another from the hash of the last row, skipping hashed ones, and stops at the first UPDATE that fails; when it fails and what the table then is. |
| Audit.BackfillKeepsContents | api/internal/audit/audit.go:234-287 | No id, content or ETag changes, and no hashed row changes at all. |
| Audit.BackfillVerifiesIff | api/internal/audit/audit.go:260-285 | The result verifies if and only if every row was unhashed, or none was and the table verified: a half-finished backfill cannot be completed by another. |
| ColdTier.KeyTellsHash | api/internal/audit/worm.go:115-125 | Objects of different hashes never share a key, whatever the tenant ids contain. |
| ColdTier.KeyTellsAll | api/internal/audit/worm.go:115-125 | A key lies under its tenant, and tells tenant, day and hash where none of them has a slash. |
| ColdTier.MockWORMStreamer.PutEntry | api/internal/audit/worm.go:63-79 | Refused exactly when the key is under retention; every retained object survives every put. |
| ColdTier.MockWORMStreamer.TamperPut | api/internal/audit/worm.go:84-94 | Tampering inside the retention window is refused and changes nothing. |
| ColdTier.Log.Append | api/internal/audit/audit.go:345-404 | Both tiers after an append, with or without a streamer, for a failed read, insert, put or ETag update too, and exactly when it returns an error. |
| ColdTier.AppendLeaves | api/internal/audit/audit.go:345-400 | What an append leaves in both tiers, field by field, for every failing statement: row, id, hashes, recorded ETag, and the hashed bytes under the key, kept for the retention window; and exactly when it succeeds. |
| CrossTier.AppendGrows | api/internal/audit/audit.go:345-404 | The key of a new row is not in the store, so its put meets no existing object, and the longer table verifies. |
| CrossTier.AppendsKeepTiers | api/internal/audit/audit.go:345-404 | In every run of appends, whatever fails, the table verifies, ids ascend, every object is a row in canonical form under its key, and no put meets a retained object. |
| CrossTier.PassFindsExactly | api/internal/audit/tamperdetect/tamperdetect.go:471-683 | After any appends and any later change to the stored objects, a fault-free pass counts exactly the rows whose object is absent and those whose object is altered, row by row. |
| CrossTier.SuccessfulAppendsAreClean | api/internal/audit/audit.go:345-404 | After successful appends the hashes are distinct, Verify is content and the pass is clean. |
| CrossTier.RollbackLeavesGap | api/internal/audit/audit.go:293-312 | A rolled-back insert between two rows: after any further steps and over any objects, a pass counts a gap and is unclean. |
| CrossTier.GapsSeenIff | api/internal/audit/audit.go:293-312 | In every run, whatever fails and with no assumption on the hashes: a pass counts a gap if and only if a rollback lies between two inserted rows. |
| CrossTier.GapIsForever | api/internal/audit/audit.go:293-312 | Once a pass counts a gap, every later pass counts one and is unclean, whatever is appended and whatever becomes of the objects. |
| CrossTier.RewriteIsPrefix | api/internal/audit/tamperdetect/tamperdetect.go:471-683 | However the hot table is rewritten with all hashes recomputed so that it verifies: if a fault-free pass over the untouched store misses no object, the table is a prefix of the original log. |
| CrossTier.RewriteSeenIff | api/internal/audit/tamperdetect/tamperdetect.go:471-683 | After successful appends the pass misses nothing if and only if the rewritten table is a prefix. |
| CrossTier.UnscannedIsClean | api/internal/audit/tamperdetect/tamperdetect.go:526-545 | A table without positive ids is never scanned, so the last row of a rewritten table must have one for the two results above. |
| TamperDetect.Report.AppendFinding | api/internal/audit/tamperdetect/tamperdetect.go:711-716 | A finding is kept while there are fewer than 256. |
| TamperDetect.Detector.CheckRow | api/internal/audit/tamperdetect/tamperdetect.go:618-683 | The HEAD-first decision matrix: counters and finding of one row, as `TamperReplies.RepliesAreCounted` spells them out. |
| TamperDetect.Detector.ScanBatch | api/internal/audit/tamperdetect/tamperdetect.go:526-582 | One page: how many rows, the new cursor, and the report after them. |
| TamperDetect.Detector.Check | api/internal/audit/tamperdetect/tamperdetect.go:471-524 | Terminates for every batch size, fails exactly when a page query it makes fails, and otherwise reports what one unpaged fold over the rows with positive ids reports. |
| TamperDetect.PagingRefines | api/internal/audit/tamperdetect/tamperdetect.go:471-582 | The paged scan equals the unpaged one from any cursor and state, gaps across page boundaries included. |
| TamperDetect.Detector.RunOnce | api/internal/audit/tamperdetect/tamperdetect.go:370-403 | Exactly one alert when a query failed or the pass is unclean, none when it is clean, and the last-clean time is set only then. |
| TamperDetect.SummaryPayload | api/internal/audit/tamperdetect/tamperdetect.go:424-457 | The sample is the first row ids of the findings, at most 50, and is marked truncated exactly when shorter than the findings. |
| TamperReport.ReportAccounts | api/internal/audit/tamperdetect/tamperdetect.go:526-716 | Counters are exact over all findings, Findings is the first 256 of them, and every row is scanned once. |
| TamperReport.CleanIffNoFindings | api/internal/audit/tamperdetect/tamperdetect.go:215-217 | A pass is clean if and only if it found nothing, capped or not; Findings has length min(256, sum of the counters) and strictly ascending row ids. |
| TamperReport.RowidGapsCountsRuns | api/internal/audit/tamperdetect/tamperdetect.go:554-568 | RowidGaps is the number of maximal runs of absent ids strictly between the least and the greatest id. |
| TamperReport.GapsIgnoreColdTier | api/internal/audit/tamperdetect/tamperdetect.go:554-580 | The cold tier never adds or hides a gap. |
| TamperReport.FastDiffersIff | api/internal/audit/tamperdetect/tamperdetect.go:618-683 | HEAD-first differs from GET-and-rehash exactly when HEAD answers with the recorded ETag for a body that does not hash to the recorded hash. |
| TamperReport.FastIsSlow | api/internal/audit/tamperdetect/tamperdetect.go:618-683 | With the ETag recorded from the canonical bytes and no ETag collision both checks give the same finding, and it tells an intact, an absent and an altered object apart. |
| TamperReplies.RepliesAreCounted | api/internal/audit/tamperdetect/tamperdetect.go:618-683 | Whatever HEAD and GET answer: the counters are the numbers of scanned rows that are lost, changed, and unreadable (HEAD does not settle them and GET returns an error), and the findings of each kind name exactly those rows, in order. |
| TamperReplies.FindingsExplained | api/internal/audit/tamperdetect/tamperdetect.go:560-683 | Every finding is explained by a scanned row and the replies for it: row id, tenant, key, expected and met hash or error; or by two neighbouring rows with ids absent between them. |
| TamperReplies.CleanIffSound | api/internal/audit/tamperdetect/tamperdetect.go:618-683 | A pass is clean exactly if no id is absent between two rows and for each row with a positive id HEAD returned the recorded ETag or GET returned a body that hashes to the recorded hash; no fault makes it clean. |
| Queue.OldestExists | api/internal/queue/queue.go:127-150 | Whenever a row is eligible, one of them is oldest. |
| Queue.OldestIff | api/internal/queue/queue.go:127-150 | The row handed out is unclaimed or claimed for longer than the lease, and none such was enqueued before it; nothing to hand out means every row is under an unexpired claim. |
| Queue.SQLiteQueue.Enqueue | api/internal/queue/queue.go:86-120 | A new unclaimed row, or the existing one under a repeated idempotency key; which of the two, and exactly when it fails: a missing tenant or job id, a failing lookup, or a failing INSERT where no row has the key. |
| Queue.SQLiteQueue.Dequeue | api/internal/queue/queue.go:127-161 | Hands out an eligible row of least enqueued_at under the token, or reports empty exactly when no row is eligible. A failing transaction changes nothing; a read-back that fails after the commit is an error with the row claimed all the same. |
| Queue.SQLiteQueue.Ack | api/internal/queue/queue.go:164-175 | Removes exactly the rows of that id and token; succeeds if and only if there is one. |
| Queue.SQLiteQueue.Nack | api/internal/queue/queue.go:178-191 | Releases exactly the row of that id and token; succeeds if and only if there is one. |
| Queue.RemovedExactly | api/internal/queue/queue.go:164-175 | What a removal keeps: every row but the matching ones. |
| Leases.RowsAreHeld | api/internal/queue/queue.go:127-191 | In every run each row shows the token of its latest claimant, or none if that one let go. |
| Leases.LeaseIsExclusive | api/internal/queue/queue.go:122-161 | Two claims of one item: the second is made after the lease of the first ran out, unless the first holder gave the item back while holding it. |
| Leases.ClaimableIff | api/internal/queue/queue.go:122-161 | At any time of any run an item can be handed out if and only if it is unclaimed or its lease ran out and none such was enqueued before it; then the new claimant holds it. |
| Leases.StaleHolderMisses | api/internal/queue/queue.go:164-191 | An Ack or Nack under a token that does not hold the item matches nothing and changes nothing. |
| Leases.ReclaimMakesStale | api/internal/queue/queue.go:122-191 | Once someone else has claimed the item, the earlier claimant is such a stale holder until it claims again. |
| Leases.NothingIsLost | api/internal/queue/queue.go:86-191 | Every enqueued item is in the queue unchanged, or was removed by an Ack from its latest claimant. |
| Jobs.Store.Submit | api/internal/jobs/jobs.go:129-168 | A submitted job, or the existing one under a repeated idempotency key, and exactly when it fails, a failing lookup or INSERT included; the index on tenant and key stays unique. |
| Jobs.Store.Transition | api/internal/jobs/jobs.go:243-287 | Among other callers before its read, between that and its UPDATE, and between that and its closing read: follows an allowed edge with the given columns if its read still holds, loses the race otherwise; what the table is and when it returns an error, each of the three statements failing or not. What it returns is the row as it then stands. |
| Jobs.SwapStores | api/internal/jobs/jobs.go:259-286 | An UPDATE applies exactly to the tenant's job in the expected status, and sets status, time, and of outputs, error and task id those that are given; every other column and every other job stays. |
| Jobs.QuietTransitionStores | api/internal/jobs/jobs.go:243-287 | Undisturbed, a transition of the tenant's own job along an edge succeeds and stores what it is given; every other one fails and leaves the table alone. |
| Jobs.AttemptedIff | api/internal/jobs/jobs.go:243-287 | Among others: exactly when a transition succeeds, and in each case of failure which table is left. |
| Jobs.AllowedIff | api/internal/jobs/jobs.go:57-67 | The allowed edges: an open job moves to the next stage, fails or is cancelled, and nothing else. |
| Jobs.AtMostThreeChanges | api/internal/jobs/jobs.go:57-67 | In any history of allowed edges a job changes at most three times and becomes terminal by exactly one write. |
| Jobs.TerminalIsFinal | api/internal/jobs/jobs.go:42-67 | Once terminal, status, outputs, error and every other column stay as they are. |
| Jobs.RankNeverFalls | api/internal/jobs/jobs.go:57-67 | A status that has been left never comes back. |
| Jobs.SuccessRanItsCourse | api/internal/jobs/jobs.go:57-67 | A job that succeeded was submitted, queued and running before: no edge skips a stage. |
| JobRuns.RunIsHistory | api/internal/jobs/jobs.go:243-287 | With any number of callers, each read and guarded UPDATE interleaved with all others, every stored change is an allowed edge. |
| JobRuns.LifecycleHolds | api/internal/jobs/jobs.go:243-287 | In every such run at most three changes, and one terminal write exactly if the job is terminal. |
| JobRuns.TerminalStays | api/internal/jobs/jobs.go:243-287 | In every such run a terminal record never changes. |
| JobRuns.EachStatusLeftOnce | api/internal/jobs/jobs.go:259-286 | In every run, whatever comes in between and whatever the clock, a status that a job has had and left was left by exactly one UPDATE, so at most one of the callers that read it succeeds. |
| JobRuns.FirstUpdateWins | api/internal/jobs/jobs.go:259-286 | A caller's UPDATE applies if and only if no other has applied on the strength of the same read: the first racer wins and every later one misses. |
| LedgerTail.MapPhaseToStatus | api/internal/dispatcher/ledgertail_client.go:241-251 | Exactly the phases complete, failed and cancelled end a task, as succeeded, failed and cancelled. |
| LedgerTail.LedgerTailClient.Poll | api/internal/dispatcher/ledgertail_client.go:121-164 | The answer of one poll and the cursor after it; a failed call moves no cursor. |
| LedgerTail.FirstEndWins | api/internal/dispatcher/ledgertail_client.go:134-164 | The outcome of a batch is its first end entry: status by its phase, outputs and error as its data has them, or an error if they cannot be read; bills on either side of it are all kept, in order. |
| LedgerTail.ParsedBillsAre | api/internal/dispatcher/ledgertail_client.go:134-164 | A poll returns exactly the bills that its entries of phase bill stand for, with task, tenant and time of the entry. |
| LedgerTail.BillIDsAgreeIff | api/internal/dispatcher/worker.go:273-288 | Two bill entries share an id if and only if task, time, SKU and meter agree, for task ids and SKUs without a colon; the time is that of the envelope, and of the bill itself only where the envelope has none. |
| LedgerTail.RecordBills | api/internal/dispatcher/worker.go:236-271 | The batch goes through Record entry by entry, each INSERT failing or not on its own, failures skipped, blank tenants replaced by that of the job. |
| BillRows.BillBecomesRow | api/internal/dispatcher/worker.go:236-288 | A complete bill with a new id whose INSERT gets through becomes a row with its tenant, or the job's where it names none, its task, SKU, meter and units, billed for the time of the bill, else of the envelope, else now, under the id spelled out. |
| BillRows.TwoTimesTwoRows | api/internal/dispatcher/worker.go:236-288 | Two complete bills of one batch whose envelopes carry different times have a row each. |
| LedgerPolls.PollsAreExplained | api/internal/dispatcher/worker.go:200-271 | Over any outbox, any tasks and any answers of the ledger: old rows stay, and there is one new row per distinct new bill id returned, with the payload returned first. |
| LedgerPolls.CursorsStayBehind | api/internal/dispatcher/ledgertail_client.go:121-133 | The cursor a client holds, none or one that was returned, never points past what has been read, so no poll skips an entry; restarts only move it back. |
| LedgerPolls.RepollAddsNothing | api/internal/dispatcher/worker.go:200-207 | A poll of what has been read already, by any client, adds no row, whether or not the bills carry a time. |
| LedgerPolls.PollsAreFirstReads | api/internal/dispatcher/ledgertail_client.go:121-164 | Any interleaving of polls of any tasks by any clients, with cursor losses and full re-reads, over any outbox, leaves what delivering each stretch of each ledger once leaves. |
| LedgerPolls.PollsAreOneRead | api/internal/dispatcher/ledgertail_client.go:121-164 | For one task whose bills carry a time that is the outbox of one read: same rows, same order. |
| Workers.Worker.FollowTask | api/internal/dispatcher/worker.go:192-228 | The follow loop, among other callers of the jobs store: jobs table, outbox and whether it returns an error, for every sequence of poll answers and of failing INSERTs. |
| Workers.Worker.Handle | api/internal/dispatcher/worker.go:169-190 | One item, among other callers: jobs table, outbox and whether it returns an error, for a missing or terminal job, a failed load or dispatch, a lost start and a missing ledger. |
| Workers.Worker.Tick | api/internal/dispatcher/worker.go:156-167 | Claims the oldest eligible item and handles it; the row is removed if handling succeeded and the worker still holds it, handed back unclaimed if it failed, and otherwise left as the other users of the queue have it. A claim that fails changes nothing; one whose read-back fails leaves the row claimed and nothing handled. |
| Workers.HandledIsDone | api/internal/dispatcher/worker.go:169-228 | With a ledger wired, and whatever others do in between, short of changing a terminal job, handling succeeds only if the job is then terminal. |
| Outcomes.EndIsStored | api/internal/dispatcher/worker.go:192-228 | A running job whose task ends, undisturbed: whatever polls came before, the job gets the status, outputs and error of the first end entry of the batch in which the task ended, and no other column or job changes. |
| Outcomes.DeadlineIsStored | api/internal/dispatcher/worker.go:196-202 | A job whose task does not end in time has failed with that error. |
| Outcomes.DispatchIsStored | api/internal/dispatcher/worker.go:178-190 | A queued job that is dispatched runs under the task id it was given; one whose dispatch fails has failed with that error. |
| Outcomes.PolledBillHasRow | api/internal/dispatcher/worker.go:203-271 | Every complete bill of every poll the loop makes has its row when the loop returns, whatever ends the loop, if its own INSERT gets through. |
| WorkerRuns.FollowRuns | api/internal/dispatcher/worker.go:192-228 | The follow loop is a run of the interleaved fleet. |
| WorkerRuns.TickIsARun | api/internal/dispatcher/worker.go:156-228 | From any reachable state of the fleet, a tick that nobody disturbs is a run of it: same queue, same jobs table, worker idle. |
| WorkerRuns.TickRefines | api/internal/dispatcher/worker.go:156-228 | Whatever the contract of Tick allows in a reachable state that nobody disturbs, a run of the fleet does: same queue, same jobs table, acknowledged exactly if it returns no error. |
| WorkerRuns.LostClaimIsARun | api/internal/dispatcher/worker.go:156-160 | From any reachable state of the fleet, a tick whose claim commits and whose read-back fails is a run of it: the worker picks the row and dies, so the row waits for its lease. |
| Fleet.FleetIsHistory | api/internal/dispatcher/worker.go:156-228 | Workers and customers together only move jobs along allowed edges. |
| Fleet.AckImpliesTerminal | api/internal/dispatcher/worker.go:156-228 | With a ledger wired, in every interleaving of workers, lease expiries, failures, crashes and customers, an acknowledged item belongs to a terminal job. |
| Fleet.AckedJobIsFinal | api/internal/dispatcher/worker.go:156-228 | And the record of that job never changes again. |
| Fleet.NoJobStranded | api/internal/dispatcher/worker.go:105-107 | Every posted item is still in the queue or its job is terminal: no job is dropped. |
| Fleet.NoLedgerAcksEarly | api/internal/dispatcher/worker.go:187-189 | Without a ledger poller, whatever the claim tokens, there is a run in which the worker acknowledges a job that is only running. |
| Fleet.AckedIsDoneIff | api/internal/dispatcher/worker.go:156-228 | Acknowledged means terminal in every run if and only if a ledger poller is wired. |
| Fleet.FleetQueueIsLegal | api/internal/queue/queue.go:86-191 | The queue inside a fleet run is a legal queue run, so the lease results hold of the workers. |
| Fleet.OneClaimPerLease | api/internal/queue/queue.go:122-191 | In terms of tokens: no second claim of an item within a lease, unless a Nack under the holding token hit the row. |
| FleetLeases.OneWorkerPerLease | api/internal/dispatcher/worker.go:156-167 | With a token for each worker, no second worker is handed an item during the lease of its holder unless that worker itself closed without acknowledging while it held the item. |
| FleetLeases.SharedTokenBreaks | api/internal/dispatcher/worker.go:95-103 | Two workers with one token: the late Nack of the first releases the claim of the second, and the item is handed out again within its lease. |
| FleetLeases.LeaseIsOwnIff | api/internal/dispatcher/worker.go:95-103 | For any lease length, leases belong to workers in every run if and only if no two workers share a claim token. |
| Fleet.FleetLifecycle | api/internal/server/server.go:257-287 | The lifecycle bounds hold with customers cancelling concurrently. |
| Meters.GetUsage | api/internal/server/server.go:389-402 | Whatever order the Go map is ranged in, the meter map holds exactly jobs and cost per SKU and the two totals. |
| Meters.AdaptUsage | web/lib/api/contract.ts:72-101 | The decoder loop is a fold over the entries. |
| Meters.DecoderReads | web/lib/api/contract.ts:72-101 | Whatever the entries and their order, each SKU gets the last number filed under each of its two keys, and nothing else. |
| Meters.RoundTrip | web/lib/api/contract.ts:72-101 | Encoded and decoded in any order, totals and per-SKU jobs and costs come back exactly, for SKU names with any text; the table is exact if and only if no SKU is named `__proto__`. |
| Meters.ShownAsPriced | api/internal/server/server.go:389-434 | What the dashboard shows for a SKU: its jobs, at the base price each if it is metered, the base price alone for a subscription, nothing otherwise. |
| Meters.MoreJobsCost | api/internal/server/server.go:389-434 | More jobs of one SKU raise the total of jobs by them, and the total cost by as many base prices if it is metered, else not at all. |
| Base64.DecodeEncode | api/internal/identity/identity.go:715-724 | Decoding undoes encoding for all byte strings in both alphabets; the text has ceil(4n/3) characters, all of the alphabet. |
| Base64.EncodeDecodeIff | api/internal/identity/identity.go:743-750 | A text that decodes is the encoding of its bytes if and only if it has no line breaks and no spare bits set. |
| Base64.DecodesIff | api/internal/identity/identity.go:743-750 | A text without line breaks decodes exactly if all its characters are of the alphabet and no single one is left over. |
| Base64.BreaksIgnored | api/internal/identity/identity.go:743-750 | A line break makes no difference to what a text decodes to, wherever it stands. |
| Base64.GroupIsOneNumber | api/internal/identity/identity.go:715-724 | Three bytes and their four sextets are one number of twenty-four bits. |
| Credentials.SplitTokenIff | api/internal/identity/identity.go:668-689 | A token is accepted, with these halves, if and only if it is the scheme, sixteen characters without a dot, a dot and a non-empty secret; a rejected one is handed back whole. |
| Credentials.MintedSplits | api/internal/identity/identity.go:652-689 | Every minted token splits into its two halves. |
| Credentials.MintedShape | api/internal/identity/identity.go:652-666 | A minted token is the scheme, sixteen characters of the URL alphabet, a dot and forty-three more. |
| Credentials.SplitJoin | api/internal/identity/identity.go:726-731 | Splitting at the separator undoes joining. |
| Credentials.JoinSplit | api/internal/identity/identity.go:726-731 | Joining undoes splitting. |
| Credentials.ScanPrinted | api/internal/identity/identity.go:732-744 | A printed integer scans back, followed by any text that does not continue it, if it fits the type. |
| Credentials.DecodeEncodeVerifier | api/internal/identity/identity.go:715-752 | Decoding an encoded verifier returns the same salt, sum and parameters, for all byte strings and integers in range. |
| Credentials.DecodesIff | api/internal/identity/identity.go:726-752 | A text decodes exactly if it has six pieces, the second argon2id, the third version 19, and parameters, salt and key scan and decode. |
| Credentials.StoredForm | api/internal/identity/identity.go:691-724 | A stored verifier, piece by piece: algorithm, version, 64 MiB, three passes, four lanes, the salt and the 32-byte key Argon2 gives. |
| Credentials.LeadIgnored | api/internal/identity/identity.go:726-731 | The decoder never looks at the text before the first separator: two texts that differ only there decode alike, or fail alike. |
| Credentials.EncodeDecodeVerifierIff | api/internal/identity/identity.go:715-752 | An accepted text is what its verifier would be printed as if and only if it is in PHC form: plain numerals without leading zeros, exact base64, and nothing before, between or after. |
| Credentials.VerifiesIffSameKey | api/internal/identity/identity.go:691-713 | A secret passes against the stored verifier of another exactly when Argon2 gives both the same key. |
| Credentials.VerifiesUnderOwnParams | api/internal/identity/identity.go:697-713 | A secret is checked under the salt, parameters and key length of the verifier itself, whatever they are. |
| Credentials.MintedTokenVerifies | api/internal/identity/identity.go:652-713 | The secret half of a minted token passes against the verifier stored for it. |

## Left out

- Overlapping reconcile passes and several `Log` objects on one database: the source serialises them inside one process only, so one pass in flight and one log are assumed.
- Stripe's own deduplication, which forgets a key after 24 hours (api/internal/billing/stripe_backend.go:86-91): the backend is the fake one, whose memory is permanent.
- The timestamp and description of a fake usage record: the model's record keeps the timestamp of the call, which the fake drops, so that period sums of charges can be stated.
- 64-bit overflow of unit sums, costs and counters, and numbers above 2^53 in JavaScript: integers are unbounded.
- Gaps in outbox ids and rows changed by hand: outbox ids count up from 1; only their order matters to the pass.
- The floating-point rounding of the drift fraction: it is computed over reals. `ListTenants` and its order are parameters.
- Two fallbacks of the catalog lookup (name only, highest version): the registry is a function from the SKU string.
- The UPDATE and DELETE triggers of the audit table, its migrations, and the failure of statements of the backfill other than its UPDATEs.
- Real S3 with its signatures: the write-once store is the in-memory one, whose retention follows the clock given to each put.
- What a rolled back insert does to the id counter is taken from the account in the source (api/internal/audit/audit.go:293-312); SQLite's sequence table is not part of this model.
- Formatted detail strings of findings: the values they carry are kept. Payloads carry no run id, times or source name.
- Appends while a detector pass is under way: a pass sees one table.
- `Leases.LeaseIsExclusive`: assumes a clock that does not run backwards from one claim to the next and one lease length.
- Bills lost when Record fails inside the worker (api/internal/dispatcher/worker.go:264-267): the cursor has moved by then, so the results of `LedgerPolls` on what is known assume that every INSERT gets through; those of `Workers` do not.
- The ledger server is not part of this model: `LedgerPolls` assumes that it answers a cursor with the entries from where that points and with a cursor that points no further than their end.
- A worker without a bill recorder, and other recorders of bills between two INSERTs of one worker: `Workers` lets others use the jobs store and the queue, not the outbox.
- BillingPasses.Quiesces: is about passes whose reading reaches the last pending row; one that breaks off again and again at the same point never reaches the rows behind it.
- Workers.HandledIsDone: assumes that others leave terminal jobs alone, which `Jobs.TerminalIsFinal` and `JobRuns.TerminalStays` show of every caller of the store.
- `WorkerRuns.TickIsARun`: is about a tick that nobody disturbs; what others may do in between is in the contracts of `Workers` and in `Fleet`.
- JSON decoding of ledger entries: an entry carries the outcome of decoding its data.
- Termination of the follow loop: it ends when its list of turns ends, as a cancelled context.
- The erasure worker, which shares the queue table and acknowledges items on other grounds; `List` cursors of jobs.
- Inputs of jobs and best-effort cancellation at the operator plane.
- Values of the meter map other than numbers are skipped by the decoder, as in the source; billing periods and the other adapters are not modelled.
- Handlers, authentication, Clerk, PagerDuty, SigV4, JSON-RPC transport, JSON Schema, the web interface.
- Bytes against characters: strings are sequences of characters, and error strings keep their constant parts only.
