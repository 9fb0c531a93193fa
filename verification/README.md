# Quellgeist, verified

A Dafny model of Quellgeist: an incident service that freezes the signals of an incident, lets a
language-model loop investigate them through read-only tools, checks every citation of the resulting
diagnosis against the frozen signals, has an independent examiner confirm the hypotheses, and posts
the verified diagnosis only after an operator approves it. `dafny verify dfyconfig.toml` checks the
project.

## What is modelled

**The incident lifecycle** is a concurrent, crash-prone protocol. `Store` holds the tables, the
per-incident signal directories and the log of publications; every writer is one commit that may
raise. `Investigation`, `Review` and `Ingress` give each operation twice: as a step function, so that
its calls into the store can interleave with those of others, and as the imperative method of the
service over a mutable `Disk` and `WorkerPool`. Each method is proved equal to its steps run to the
end, for every choice of calls that raise. `Locks` does the same for the reference-counted per-incident
locks. `Protocol` interleaves any number of deliveries, reviews (with their steered re-runs inside)
and workers at every store call, with crashes at any point and restarts that reconcile one row at a
time. `WorldSafety`, `StepSafety`, `ProtocolSafety` and `ProtocolRuns` carry the inductive invariant;
`ProtocolTheorems` and `ProtocolPosts` state what the service promises over every run; `ProtocolProgress` and
`ProtocolReach` show that the protocol takes exactly the steps of the code and that the promises are
not empty.

What a run has lost or disturbed is tracked in history variables. `lost` are the incidents hit by a
crash, by a call that raises between claim and hand-over, by a worker exception or by a swallowed
terminal write. `disturbed` are those whose publication was sent but not followed through. The
statements on work conservation and on double posts are about the others, and say so; in a run without a
crash and without such a call nothing is lost or disturbed (`ProtocolTheorems.NothingLost`).

**The evidence chain.** `Evidence` (diagnosis contract, citation check, and the general shape of a
verification pass), `Verifier`, `TimingVerifier`, `Filters`, `Tools` and `Loop`. The loop is an
interpreter over a live message list shared with the provider; a provider is an arbitrary function of
its call number and the messages so far, or raises. The chain from what tools return, to what is seen,
cited, verified and finally published is proved end to end: `Chain` composes the loop with the
investigation and the protocol, whose theorems hold for any diagnosis the loop may conclude.

**Time and ingestion.** `Timestamps` counts days of the proleptic Gregorian calendar, `TimeText`
writes and reads the canonical UTC text and proves that string order is time order (section 5.1 of
RFC 3339), `IsoText` reads date-times with offsets (the profile of section 5.6 of RFC 3339),
`Normalize` and `LogRows` normalise fields and rows, `GitLog` parses `git log` text. `JsonText`
prints and decodes JSON, `JsonGrammar` says which texts write which value (sections 2 to 7 of RFC 8259)
and proves that exactly those are read, and `Actions` takes the object out of a reply.

**Evaluation and training.** `Masking` (loss labels and their audit), `Scenarios`, `Probes`,
`Variants` and `PositionalScript` (generated scenarios over arbitrary draws, the judge, the derived
probes), `Kappa`, `Contamination` (with a small backtracking matcher) and `Resolution`.

## What the proofs found

- The header of `investigate.py` says the verifier is not wired into the service; the code wires it
  (lines 72-92 and 193-200), and the model follows the code.
- Seen handles are real exactly when no commit or metric row carries a stray `id`, `sha` or `metric`
  key (`Tools.ToolsConfinedIff`): commit and metric files are read as they are, and recording what was
  seen looks at any of the three keys in any row. One commit row with an `id` is enough
  (`Tools.StrayIsShown`). The early-read measurement then misses a fabricated citation of some model,
  exactly if the stray handle is one that can be cited (`Loop.CoversExactly`).
- A directory left behind by an earlier attempt makes the atomic rename fail for as long as it is there
  and not empty (`Ingress.DeliveryAllOrNothing`). Such a directory comes about, for instance, when a shed
  delivery's clean-up is swallowed (`Ingress.ShedLeavesDirectory`), and the id then keeps being answered 503
  (`Ingress.BlockedStaysBlocked`).
- The header of `investigate.py` promises that a raise anywhere degrades to a failed run and a failed
  incident. That fails once the run row is written: a raise in any of the four writes after it leaves a
  failed incident whose run keeps its outcome. The exact conditions, for every set of raising calls, are
  `Investigation.DegradesExactly`, `DisagreeExactly` and `StuckExactly`; a witness is
  `FailedYetDiagnosed`. The same header says the entire body is guarded, but the connection is opened
  (line 170) and the start logged (line 174) before the guarded part; the model counts a raise there
  as one of the provider factory.
- `_from_epoch` is not monotone across its switch between seconds and milliseconds; the exact overlap
  is `Normalize.EpochOrderExactly`, a witness is `Normalize.SwitchIsNotMonotone`.
- The normalisers are called total and are not: an epoch in microseconds raises
  (`Normalize.MicrosecondsRaise`), and so does a date-time whose offset carries it past the last year
  (`Normalize.LastHourRaises`). The raising numbers are two far ends and a hole just inside the negative
  side of the switch (`Normalize.NumbersThatRaise`, `HoleInsideSwitch`); a timestamp of any kind raises
  exactly as `Normalize.NormalizeTsRaises` says, and a whole file is lost exactly to such a row
  (`LogRows.IngestRaises`).
- Log ids are promised to be unique and are not: two rows that bring the same id repeat it, and so does
  a row that brings an id assigned before it (`LogRows.IdsCanRepeat`). They are unique exactly when no
  row brings an id that is taken (`LogRows.UniqueExactly`).
- A crash between publishing and marking the row leads to a second publication after the restart
  (`ProtocolReach.CrashCanPublishTwice`); without such a disturbance there is never one. Disturbed
  incidents are at that risk: they have been published (`ProtocolPosts.DisturbedWasPublished`),
  can be published again from any state in which they are in review with a clean and verified last run
  (`ProtocolReach.PublishedAgain`), and cannot once they are closed
  (`ProtocolPosts.ClosedIsNeverPublished`).
- The order in which runs with equal start times are listed is arbitrary (`Store.LatestAreTied`), so a
  review may judge either, and whether an approval publishes or is refused can hang on it
  (`Review.TieDecides`).
- The `else` of the kappa guard is dead (`Kappa.GuardMeansUnanimous`).

## Model

| member | source | states |
|---|---|---|
| `Evidence.RealSignalHandles` | src/quellgeist/agent/citations.py:28-46 | the handles collected in three passes are exactly the (kind, key) pairs of the rows that carry the key, over all three sources |
| `Evidence.CheckFabrication` | src/quellgeist/agent/citations.py:64-73 | the result is empty exactly when everything cited is real; it is the cited handles that are not real |
| `Evidence.KeepIsSubsequence` | src/quellgeist/agent/verifier.py:146-170 | survivors are an order-preserving subsequence of the hypotheses |
| `Evidence.ReduceOnlyRemoves` | src/quellgeist/agent/verifier.py:159-179 | a verification pass yields a well-formed diagnosis, keeps exactly the hypotheses that pass, in order, and cites nothing new |
| `Evidence.ReductionsCommute` | src/quellgeist/agent/verifier.py:159-179 | two passes may run in either order: the results differ at most in the wording of the abstention reason |
| `Verifier.LookupIsReal` | src/quellgeist/agent/verifier.py:69-99 | a cited handle resolves exactly when the citation check calls it real, and to the last row of its source that carries it |
| `Verifier.LookupIsLast` | src/quellgeist/agent/verifier.py:69-99 | a handle resolves to a row exactly when that is the last row of its source whose key has the handle's value |
| `Verifier.ResolveShows` | src/quellgeist/agent/verifier.py:69-99 | the examiner is handed exactly one entry per cited reference, in order: the kind and key cited, with the row it resolves to, or with none |
| `Verifier.SupportMeans` | src/quellgeist/agent/verifier.py:102-157 | told without the resolving: supported exactly when some cited reference is found and the examiner, shown those entries, answers the literal `true` |
| `Verifier.GroundedIsReal` | src/quellgeist/agent/verifier.py:146-157 | a hypothesis is sent to the examiner exactly when it cites at least one real signal |
| `Verifier.VerifiedOnlyRemoves` | src/quellgeist/agent/verifier.py:126-179 | verification keeps exactly the supported hypotheses, in order, stays well-formed, cites nothing new, and every survivor cites a real signal |
| `Verifier.VerdictFor` | src/quellgeist/agent/verifier.py:102-157 | one verdict: unavailable exactly when a needed call is; supported only for a literal `true` on a hypothesis with a cited row found, asked on entries that show the last row of each handle |
| `Verifier.Verify` | src/quellgeist/agent/verifier.py:126-179 | the loop computes the verified diagnosis and one verdict per hypothesis, each told by the rows its references stand for; unavailable exactly when a needed examining call is |
| `TimingVerifier.FirstErrorIsEarliest` | src/quellgeist/agent/timing_verifier.py:51-60 | the first-error time is the least instant among dated error rows, absent exactly when there is none |
| `TimingVerifier.VerifyTiming` | src/quellgeist/agent/timing_verifier.py:92-141 | the loop drops exactly the hypotheses with a timing objection and abstains when none is left |
| `TimingVerifier.TimedMeaning` | src/quellgeist/agent/timing_verifier.py:63-141 | a hypothesis is dropped exactly when it cites a dated commit and some dated error precedes every dated commit it cites; the rest survives in order |
| `TimingVerifier.TimedIdempotent` | src/quellgeist/agent/timing_verifier.py:92-141 | a second timing pass changes nothing |
| `TimingVerifier.TimingAndSupportCommute` | evals/run_evals.py:109-129 | with an available examiner, timing then support and support then timing agree up to the abstention reason |
| `TimingVerifier.TimingSparesCalls` | evals/run_evals.py:109-129 | running timing first needs the examiner for exactly the hypotheses it leaves |
| `Store.Disk.Create` | src/quellgeist/store/dao.py:19-32 | the claim fails on a known id or an unavailable store and then changes nothing; otherwise it adds the row |
| `Store.Disk.SetStatus` | src/quellgeist/store/dao.py:51-57 | sets the status of the row if there is one; nothing else changes |
| `Store.Disk.Delete` | src/quellgeist/store/dao.py:60-66 | removes the row and its events, unless a run refers to it |
| `Store.OthersKeepTheirEvents` | src/quellgeist/store/dao.py:60-66 | removing an incident's events keeps those of every other incident, in order |
| `Store.Disk.InsertRun` | src/quellgeist/store/dao.py:101-122 | one row per run id, only for a known incident |
| `Store.Disk.InsertDiagnosis` | src/quellgeist/store/dao.py:158-171 | one row per run, only for a recorded run |
| `Store.Disk.InsertEvidence` | src/quellgeist/store/dao.py:174-187 | one row per hypothesis index and cited handle |
| `Store.Disk.Review` | src/quellgeist/store/dao.py:190-204 | records the decision on the diagnosis row and nothing else |
| `Store.Disk.Append` | src/quellgeist/store/dao.py:216-229 | appends one event |
| `Store.LatestAreTied` | src/quellgeist/store/dao.py:148-155 | exactly the runs with the largest start time may be listed last |
| `Store.Disk.LatestRun` | src/quellgeist/store/dao.py:148-155 | the last listed run is one with the largest start time, ties arbitrary; none exactly when the incident has no run |
| `Store.Disk.Snapshot` | src/quellgeist/service/snapshots.py:27-55 | the directory appears whole or not at all; a leftover non-empty directory makes it fail |
| `Store.Disk.Discard` | src/quellgeist/service/snapshots.py:58-66 | best-effort removal of one directory, never raising |
| `Investigation.PersistFailed` | src/quellgeist/orchestrator/investigate.py:95-142 | three writes, each swallowed on its own, equal the failure path of the step function run to its end |
| `Investigation.Body` | src/quellgeist/orchestrator/investigate.py:179-259 | the guarded body equals the step function up to its end or to the first raise, with the diagnosis if the loop produced one |
| `Investigation.RunInvestigation` | src/quellgeist/orchestrator/investigate.py:145-279 | the code equals the interleavable step function run to its end, for every choice of raising calls |
| `Investigation.TerminalGuarantee` | src/quellgeist/orchestrator/investigate.py:145-279 | the incident leaves 'running': for 'pending_review' with run, citation check, diagnosis, verification and evidence recorded, or, unless that write is swallowed, for 'failed' with the diagnosis kept in the event log |
| `Investigation.InvestigationLeaves` | src/quellgeist/orchestrator/investigate.py:145-279 | for every choice of raising calls: the run rows and the incident's status that an investigation with a new run id leaves |
| `Investigation.InvestigationLogs` | src/quellgeist/orchestrator/investigate.py:145-279 | for every choice of raising calls: the diagnoses, evidence and events that an investigation leaves |
| `Investigation.StuckExactly` | src/quellgeist/orchestrator/investigate.py:9-13 | the incident stays at 'running' exactly when something raised after that was written and the 'failed' status write raised as well |
| `Investigation.DegradesExactly` | src/quellgeist/orchestrator/investigate.py:9-13 | the promised degradation, a 'failed' run and a 'failed' incident, is met exactly when nothing was concluded or its run row not written, and neither failure write is swallowed |
| `Investigation.DisagreeExactly` | src/quellgeist/orchestrator/investigate.py:98-142 | the incident reads 'failed' while its run keeps the recorded outcome exactly when the run row was written, a later one of the four writes raised, and the 'failed' status write did not |
| `Investigation.FailedYetDiagnosed` | src/quellgeist/orchestrator/investigate.py:98-142 | a witness: when only the last write raises, the incident reads 'failed' while its run row says 'diagnosed' |
| `Chain.RecordedWasUnseen` | src/quellgeist/orchestrator/investigate.py:183-233 | for every provider and every raising call, the citation check of a written run accuses the diagnosis of nothing a tool has shown, only of what the loop cited unseen |
| `Chain.SeenCanBePublished` | src/quellgeist/orchestrator/investigate.py:183-259 | an incident whose loop cites only what its tools showed it, and whose examiner answers, can be delivered, investigated, approved and published |
| `Review.RejectIt` | src/quellgeist/orchestrator/review.py:74-91 | the reject branch equals its steps: decision, event, status, then the directory is reaped |
| `Review.ApproveIt` | src/quellgeist/orchestrator/review.py:120-186 | the approve branch equals its steps: decision, publish, event, status, then the directory is reaped |
| `Review.SteerIt` | src/quellgeist/orchestrator/review.py:93-154 | the steer branch equals its steps, the re-run included |
| `Review.ReportSteered` | src/quellgeist/orchestrator/review.py:138-154 | the status reported after a steer is the persisted one, and the directory is reaped only when that is 'failed' |
| `Review.ApplyReview` | src/quellgeist/orchestrator/review.py:41-186 | the whole review equals the step function run to its end, with the run the store lists last |
| `Review.ApproveIsFailClosed` | src/quellgeist/orchestrator/review.py:57-186 | an approval publishes exactly when the incident is in review and its last run is clean and verified: then that verified diagnosis, once, the row is posted, the decision noted on the diagnosis and in one 'posted' event, and nothing else changes; otherwise it is refused and changes nothing |
| `Review.TieDecides` | src/quellgeist/orchestrator/review.py:64-119 | when a clean and a fabricated run start together, the arbitrary order of the listing decides whether the approval publishes or is refused |
| `Review.RefusalChangesNothing` | src/quellgeist/orchestrator/review.py:50-66 | whatever the decision: if it is malformed, the incident not in review or without a run, the review is refused with 400, 404 or 409 and changes nothing |
| `Review.RejectCloses` | src/quellgeist/orchestrator/review.py:74-91 | a rejection closes the row, notes the decision on the diagnosis and in one 'rejected' event, and reaps the directory; nothing else in the store changes and nothing is published |
| `Review.SteerReruns` | src/quellgeist/orchestrator/review.py:93-154 | a steer notes the decision in one 'steered' event, and answers with the status its re-run leaves, for every call of the re-run that raises; the run rows are those it leaves, the directory is reaped exactly when the incident failed, nothing is published |
| `Ingress.IngestIncident` | src/quellgeist/service/app.py:57-119 | claim, snapshot and event, or the answer that ends the delivery, equal the step function |
| `Ingress.CreateIncidentLocked` | src/quellgeist/service/app.py:343-358 | the locked section with its rollback equals the delivery's step function run to its end |
| `Ingress.DeliveryAllOrNothing` | src/quellgeist/service/app.py:57-119 | a delivery whose store works is all or nothing: duplicate, accepted (row queued, directory in place, last in the queue) exactly when the snapshot is possible and there is room, otherwise 503 with rows, runs, diagnoses and queue as before |
| `Ingress.DeliveryEvents` | src/quellgeist/service/app.py:57-119 | the events a delivery leaves: one 'received' if it is accepted, none of its own if it is not, and in every case those of all other incidents |
| `Ingress.ShedLeavesDirectory` | src/quellgeist/service/app.py:209-217 | how an id gets blocked: a new incident that meets a full queue and whose clean-up is swallowed is answered 503 and leaves a directory without a row |
| `Ingress.BlockedStaysBlocked` | src/quellgeist/service/app.py:57-105 | what that leads to: however many deliveries follow, with or without room, each is answered 503 and changes neither tables nor directory |
| `Ingress.IncidentsByStatus` | src/quellgeist/store/dao.py:69-98 | every queued or running incident once, oldest first |
| `Ingress.Fetch` | src/quellgeist/service/app.py:226-244 | moves to review exactly the waiting incidents some run of which was diagnosed or abstained, and collects the others, oldest first |
| `Ingress.RecoverPending` | src/quellgeist/service/app.py:220-253 | after it, every waiting incident with a concluded run is in review, and the others are queued oldest first until the queue is full |
| `Ingress.ReconciledMeans` | src/quellgeist/service/app.py:226-240 | the store recovery leaves, row by row: a waiting incident reads 'pending_review' exactly when some run of it concluded, every other row and all else is unchanged |
| `Ingress.UnfinishedMeans` | src/quellgeist/service/app.py:226-244 | what is left to queue: exactly the waiting incidents without a concluded run, once each, oldest first |
| `ProtocolTheorems.RecoveryOutcome` | src/quellgeist/service/app.py:220-253 | the outcome of a restart, over the rows alone: those with a concluded run go to review and are not queued; the others are queued in order of age as far as there is room, status unchanged |
| `Ingress.WorkerPool.Enqueue` | src/quellgeist/service/queue.py:66-73 | appends, or reports a full queue and changes nothing |
| `Ingress.ProcessSync` | src/quellgeist/service/queue.py:92-124 | the worker's job equals its step function; the directory is reaped only for a persisted 'failed' |
| `Ingress.WorkLeaves` | src/quellgeist/service/queue.py:92-124 | what a job leaves, for every choice of raising calls: nothing changed if the incident cannot be loaded; else what the investigation leaves, without the directory exactly if the result is a failure that is persisted as 'failed' and can be read back and discarded |
| `Locks.LockTable.EnterTask` | src/quellgeist/service/app.py:267-272 | looks up or creates the id's lock and counts the caller |
| `Locks.LockTable.AcquireLock` | src/quellgeist/service/app.py:274-275 | the caller becomes the holder of the lock |
| `Locks.LockTable.ExitTask` | src/quellgeist/service/app.py:276-280 | releases, uncounts, and drops both entries when the last task leaves |
| `Locks.ExitKeeps` | src/quellgeist/service/app.py:276-280 | leaving keeps the invariant and takes nobody else's lock away |
| `Locks.MutualExclusion` | src/quellgeist/service/app.py:260-280 | two tasks that hold the lock of one id are the same task |
| `Locks.LockTableSafe` | src/quellgeist/service/app.py:264-280 | in every state of every run the count is the number of tasks inside, all of an id share its lock, at most one holds it, and with nobody inside both dictionaries are empty |
| `ProtocolSafety.ActKeeps` | src/quellgeist/service/app.py:343-358 | one step of any task keeps the whole invariant |
| `ProtocolRuns.NextKeeps` | src/quellgeist/service/app.py:220-423 | every step of the service, crashes and restarts included, keeps the invariant |
| `ProtocolRuns.RunSafe` | src/quellgeist/service/app.py:220-423 | every state of every run satisfies the invariant |
| `ProtocolTheorems.PublishedCitesRealSignals` | src/quellgeist/orchestrator/review.py:64-165 | in every run, whatever was published is the verified diagnosis of a recorded run with a clean citation check and cites only signals of the incident's frozen directory, then and ever after |
| `ProtocolTheorems.SingleFlight` | src/quellgeist/service/app.py:343-358 | no two tasks ever investigate one incident, and one under investigation is not queued |
| `ProtocolTheorems.WorkConserved` | src/quellgeist/service/queue.py:66-124 | a queued or running incident that no crash or raising call has hit is in exactly one place: the queue or one task |
| `ProtocolTheorems.NothingLost` | src/quellgeist/service/app.py:220-423 | without a crash, and unless one of nine named calls raises, no incident is ever lost or disturbed, so that the statements about the others hold of all |
| `ProtocolTheorems.QueueIsFifo` | src/quellgeist/service/queue.py:66-90 | every step leaves the queue, adds one incident behind the others, or takes the foremost for a worker |
| `ProtocolTheorems.SnapshotKept` | src/quellgeist/service/app.py:89-105 | an incident answered 202 is never deleted, and while it is queued, running or in review its directory is in place with the signals it was accepted with |
| `ProtocolTheorems.DiscardedOnlyWhenClosed` | src/quellgeist/service/queue.py:112-124 | a directory disappears only when the row is posted, rejected or failed, or gone |
| `ProtocolTheorems.TerminalIsFinal` | src/quellgeist/orchestrator/review.py:60-63 | posted, rejected and failed are absorbing, and such an incident is never queued or investigated again |
| `ProtocolTheorems.PublishedAtMostOnce` | src/quellgeist/orchestrator/review.py:156-180 | unless a publication was not followed through, an incident is published at most once, and reads 'posted' once it is |
| `ProtocolPosts.DisturbedWasPublished` | src/quellgeist/orchestrator/review.py:156-180 | the other half: an incident whose publication was not followed through has been published |
| `ProtocolPosts.ClosedIsNeverPublished` | src/quellgeist/orchestrator/review.py:57-63 | once posted, rejected or failed an incident is never published again, disturbed or not |
| `ProtocolTheorems.RecoveryProgress` | src/quellgeist/service/app.py:226-244 | after each turn of the recovery loop the store and the collected list are those of the listing's prefix |
| `ProtocolTheorems.RecoveryIsExact` | src/quellgeist/service/app.py:220-253 | recovery moves exactly the waiting incidents with a diagnosed or abstained run to review without a re-run, queues the others oldest first, and leaves exactly those beyond the bound |
| `ProtocolProgress.DeliveryRuns` | src/quellgeist/service/app.py:343-358 | a delivery that holds the lock is never stuck and ends in the store, queue and answer of the locked section |
| `ProtocolProgress.WorkerRuns` | src/quellgeist/service/queue.py:92-124 | a busy worker is never stuck and leaves the store as its code does |
| `ProtocolProgress.ReviewRuns` | src/quellgeist/service/app.py:411-423 | a review that holds the lock is never stuck and ends in the store and answer of the review code |
| `ProtocolReach.CleanDiagnosisCanBePublished` | src/quellgeist/service/app.py:343-358 | for every incident, signals and clean verifiable diagnosis some run delivers, investigates, approves and publishes it |
| `ProtocolReach.ReviewedCanBePublished` | src/quellgeist/service/app.py:220-253 | from every state of every run, whoever is at work: an incident in review with a clean and verified last run can be published after a restart, published before or not |
| `ProtocolReach.PublishedAgain` | src/quellgeist/orchestrator/review.py:156-180 | so one that has been published and is in review like that can be published once more |
| `ProtocolReach.CrashCanPublishTwice` | src/quellgeist/orchestrator/review.py:156-180 | such states exist: for every clean verifiable diagnosis some run crashes after the publication was sent, and publishes it a second time after the restart |
| `Timestamps.EpochOrder` | src/quellgeist/servers/filters.py:18-34 | the order of instants is the order of calendar fields |
| `Timestamps.FromEpoch` | src/quellgeist/ingest/normalize.py:101-106 | a second in range becomes the calendar time that counts it |
| `Timestamps.FromEpochInverts` | src/quellgeist/ingest/normalize.py:101-106 | the calendar time of a calendar time's second is that calendar time |
| `TimeText.ParseFormat` | src/quellgeist/servers/filters.py:18-34 | reading a written timestamp gives back its fields |
| `TimeText.FormatParse` | src/quellgeist/servers/filters.py:18-34 | a text reads as canonical only if it is what writing its fields gives |
| `TimeText.StringOrderIsTimeOrder` | src/quellgeist/servers/filters.py:18-34 | string order is time order on canonical timestamps, equality included |
| `TimeText.CanonicalOrder` | src/quellgeist/servers/filters.py:50 | `ts >= since` on canonical texts compares instants |
| `Normalize.SecondsInvert` | src/quellgeist/ingest/normalize.py:101-106 | an epoch in seconds reads as the instant it counts exactly when it is on the near side of the switch |
| `Normalize.MillisecondsInvert` | src/quellgeist/ingest/normalize.py:101-106 | an epoch in milliseconds reads as its second exactly when it is on the far side of the switch, or is 0 or -1 |
| `Normalize.EpochOrderExactly` | src/quellgeist/ingest/normalize.py:101-106 | the order of readings is the order of the numbers except in exactly described overlaps across the switch |
| `Normalize.SwitchIsNotMonotone` | src/quellgeist/ingest/normalize.py:104-105 | the overlap is real: a larger number can read as an earlier time |
| `Normalize.NumbersThatRaise` | src/quellgeist/ingest/normalize.py:101-106 | the numbers whose reading raises are exactly those past year 9999 in milliseconds, those before year 1 in seconds (a hole just inside the switch) and those before year 1 in milliseconds |
| `Normalize.HoleInsideSwitch` | src/quellgeist/ingest/normalize.py:104-106 | raising is not one-sided: readable numbers lie on both sides of the hole |
| `Normalize.MicrosecondsRaise` | src/quellgeist/ingest/normalize.py:69-71 | totality fails: an epoch in microseconds raises |
| `Normalize.LastHourRaises` | src/quellgeist/ingest/normalize.py:86-93 | totality fails for a well-formed text: the last hour of the calendar with an offset behind UTC raises |
| `Normalize.NormalizeTsRaises` | src/quellgeist/ingest/normalize.py:59-106 | a timestamp raises exactly if it is such a number, or a text whose instant is outside the calendar, or a numeric text that is infinite or too far outside it for the platform to count, where the error is not the caught ValueError |
| `Normalize.NormalizeTsTwice` | src/quellgeist/ingest/normalize.py:59-98 | normalising is idempotent and fixes canonical texts; for a timestamp of the years 1 to 999, if what the platform writes for it reads back as itself or not at all |
| `IsoText.StampReads` | src/quellgeist/ingest/normalize.py:86-93 | whatever the fraction and the zone, a date-time reads as its date and time less its offset |
| `IsoText.OnlyStampsAreRead` | src/quellgeist/ingest/normalize.py:86-93 | and nothing else is: what the profile reads is 19 characters of a date and time, then perhaps a point or comma with digits, then perhaps an offset in range, and it denotes that time less the offset |
| `Normalize.OffsetsKeepTheirInstant` | src/quellgeist/ingest/normalize.py:86-93 | a date-time with any separator, fraction and offset (seconds in it included) becomes the canonical text of the same instant, floored to the second, and raises exactly when that instant is outside the calendar |
| `Normalize.NormalizeLevelTwice` | src/quellgeist/ingest/normalize.py:109-118 | normalising a level is idempotent |
| `Normalize.LevelsMean` | src/quellgeist/ingest/normalize.py:41-56 | which words, in any case and with white space around them, become which of the four levels, each exactly; every other text is upper-cased |
| `LogRows.NormalizeLogRows` | src/quellgeist/ingest/normalize.py:138-181 | the loop computes the specified rows, or raises with the first timestamp that does |
| `LogRows.PickMeans` | src/quellgeist/ingest/normalize.py:121-128 | the value picked is that of the first listed alias the row spells in any case, at its last spelling; none exactly when no alias is spelled |
| `LogRows.FieldsMean` | src/quellgeist/ingest/normalize.py:26-32 | each field's aliases in their order, and what each field becomes from the value found or from none |
| `LogRows.AssignedIdsExceed` | src/quellgeist/ingest/normalize.py:149-181 | a usable id is kept; an assigned id exceeds every id before it |
| `LogRows.RepeatsAreBrought` | src/quellgeist/ingest/normalize.py:149-181 | two rows share an id exactly when the later one brings the id of the earlier along |
| `LogRows.UniqueExactly` | src/quellgeist/ingest/normalize.py:138-181 | ids are unique exactly when no row brings along an id that a row before it brought or was assigned, told from the raw rows alone |
| `LogRows.AssignedAreUnique` | src/quellgeist/ingest/normalize.py:142-145 | in particular, without brought ids all are distinct |
| `LogRows.IdsCanRepeat` | src/quellgeist/ingest/normalize.py:149-181 | global uniqueness fails: an assigned id can be brought along later |
| `LogRows.IngestRaises` | src/quellgeist/ingest/normalize.py:138-181 | the rows of a file are lost to a raise exactly when some row's timestamp, under whichever alias it is found, is one that raises |
| `LogRows.NormalizeLogRowsTwice` | src/quellgeist/ingest/normalize.py:138-181 | normalising what was normalised changes nothing, from any start id; the same assumption is made if some row is of the years 1 to 999 |
| `LogRows.ReadDirectory` | src/quellgeist/ingest/sources.py:115-130 | the merge loop, sort and renumbering compute the specified rows |
| `LogRows.StreamMeans` | src/quellgeist/ingest/sources.py:115-123 | the merged stream is every row of every file in order, each without its id and with every other entry kept in order |
| `LogRows.DirectoryMerges` | src/quellgeist/ingest/sources.py:116-130 | the merged rows are all files' rows, each normalised, in time order with ties in ingest order, with ids 0 to n-1 |
| `GitLog.FromGitLogText` | src/quellgeist/ingest/sources.py:137-164 | the line loop computes the specified commits |
| `GitLog.ParseMeans` | src/quellgeist/ingest/sources.py:137-164 | the parse of any text, told by looking ahead instead of by a state: one commit for each line with at least two separators, in order, with its first three pieces stripped, and the following lines up to the next header or blank line as its files |
| `GitLog.LinesMean` | src/quellgeist/ingest/sources.py:146 | a text has exactly one split into lines, at the ten break characters and at both of a carriage return and line feed, and that one is used |
| `GitLog.GitLogRoundTrip` | src/quellgeist/ingest/sources.py:137-164 | printing commits in the documented format and parsing gives them back |
| `GitLog.OpenMeans` | src/quellgeist/ingest/sources.py:146-163 | a commit is taking files exactly when a header has been seen and no blank line since |
| `GitLog.NoiseNeverMatters` | src/quellgeist/ingest/sources.py:146-163 | lines that are no headers never change the parse before the first header or after a blank line; elsewhere the first of them becomes a file |
| `Filters.SinceIsByTime` | src/quellgeist/servers/filters.py:37-57 | `since` keeps exactly the rows at or after that instant that match level and route, unchanged and in source order |
| `Filters.FilterLogRows` | src/quellgeist/servers/filters.py:37-57 | the loop computes the matching rows, or raises for a non-canonical `since` or a timestamp that is no string |
| `Filters.LogsMean` | src/quellgeist/servers/filters.py:37-57 | for any rows: exactly the wanted rows, as often and in the order they have; raises exactly for a `since` that is not canonical or a timestamp that cannot be compared with it |
| `Filters.RecentIsNewestFirst` | src/quellgeist/servers/filters.py:60-78 | newest first; without a limit a permutation of the commits at or after `since`, ties in source order |
| `Filters.LimitKeepsMostRecent` | src/quellgeist/servers/filters.py:60-78 | no omitted commit is newer than a returned one |
| `Filters.RecentCommits` | src/quellgeist/servers/filters.py:60-78 | the selection loop, sort and slice compute the specified commits |
| `Filters.MetricsKeepIdentity` | src/quellgeist/servers/filters.py:81-101 | every returned series is a source series up to trimmed points |
| `Filters.FilterMetricRows` | src/quellgeist/servers/filters.py:81-101 | the loop computes the matching series, or raises |
| `Filters.MetricsMean` | src/quellgeist/servers/filters.py:81-101 | every series of the name, in order, as it is or with exactly the points at or after `since` and every other field kept; when it raises, exactly |
| `Tools.CapSeries` | src/quellgeist/orchestrator/tools_factory.py:103-113 | the capping loop keeps the last points of each series, the i-th from the end that of the source, every other field kept; it raises exactly on a series without countable points |
| `Tools.QueryLogsMeans` | src/quellgeist/orchestrator/tools_factory.py:94-98 | `query_logs` is the most recent part of the matching rows: all without a cap, else as many as the cap allows, the i-th from the end being the i-th from the end of them |
| `Tools.GetRecentCommitsMeans` | src/quellgeist/orchestrator/tools_factory.py:100-101 | `get_recent_commits` passes since and limit on, and raises on any other argument |
| `Tools.QueryMetricsMeans` | src/quellgeist/orchestrator/tools_factory.py:103-113 | `query_metrics` is the matching series, each with its most recent points and every other field kept; raises exactly when the filter does, a matching series has no points to count under a cap, or an argument is unknown |
| `Tools.WrongTypesRaise` | src/quellgeist/orchestrator/tools_factory.py:94-113 | arguments of the wrong type raise; a level that counts as false is no level |
| `Tools.CapSeen` | src/quellgeist/orchestrator/tools_factory.py:103-113 | point caps never change which handles a result shows |
| `Tools.StrayIsShown` | src/quellgeist/orchestrator/tools_factory.py:87-119 | a witness: a commit row that also has an id makes the tools show a log row that is not there |
| `Tools.ToolsConfinedIff` | src/quellgeist/orchestrator/tools_factory.py:87-119 | for all arguments the tools show only real handles exactly when no commit or metric row carries a stray one |
| `Loop.RecordSeen` | src/quellgeist/agent/loop.py:71-78 | the seen set grows by exactly the handles the rows show |
| `Tools.SeenMeans` | src/quellgeist/agent/loop.py:71-78 | the handles rows show: a metric by its name, another row by its id, and a commit by its sha |
| `Loop.TakeTells` | src/quellgeist/agent/loop.py:119-161 | one reply told by what it says: it concludes; or its call is recorded and answered with an observation of exactly the rows the tool returned; or the recorded objection is sent back |
| `Loop.TranscriptMeans` | src/quellgeist/agent/loop.py:109-168 | every run's transcript: the opening, then each reply, which is what the model wrote on exactly the messages before it, followed by its answer, then the concluding reply if there is one; calls, objections and seen handles are those of the replies in order |
| `Loop.HintProvider.Complete` | src/quellgeist/orchestrator/hint.py:32-38 | the first call appends the hint to the caller's list, later calls pass through |
| `Loop.TakeReply` | src/quellgeist/agent/loop.py:119-161 | one reply on the live list, told by what it says: the diagnosis it concludes with; or its call recorded and answered with exactly the rows the tool returned; or the recorded objection sent back |
| `Loop.RunLoop` | src/quellgeist/agent/loop.py:93-168 | the loop around a hint wrapper equals the bare provider started on [system, trigger, hint]; the list the caller holds is the result's transcript, whose every message, call, violation and seen handle is told by the replies |
| `Loop.EveryStepAccounted` | src/quellgeist/agent/loop.py:109-168 | every step is a violation, an answered call or the conclusion; without a conclusion the budget is spent and the loop abstains |
| `Loop.Replay` | evals/training/trajectories.py:103-115 | replaying the assistant turns of any transcript reproduces messages, calls, violations, seen handles, steps and diagnosis |
| `Loop.UnseenCoversFabricated` | src/quellgeist/agent/loop.py:63-78 | for every provider seen handles are real, so every fabricated citation is among the cited but unseen |
| `Loop.SeenIsRealExactly` | src/quellgeist/agent/loop.py:71-78 | whenever replies can call the tools and cite any handle: every model sees real handles only, exactly when no row carries a stray one |
| `Loop.CoversExactly` | src/quellgeist/agent/loop.py:63-78 | in the same setting: the early-read measurement misses no fabricated citation of any model, exactly when no row carries a stray handle that can be cited |
| `Masking.RenderExample` | finetune/rendering.py:51-98 | for any tokenizer: fails unless every check holds; otherwise exactly the positions inside a trained turn past its header carry their own id as label |
| `Masking.RendersMeans` | finetune/rendering.py:51-98 | for any tokenizer: exactly which examples render, told by their texts and ids: no marker in any content, short enough, the header reads as itself, each assistant turn starts the rest of the whole with it, each trained one decodes to its content with the end marker, and there is one |
| `Masking.FindSpans` | finetune/rendering.py:107-116 | the scan computes the decoded maximal runs of labelled positions |
| `Masking.MatchesMeans` | finetune/rendering.py:121-126 | a span matches a content exactly when it is that content, the end marker, and line breaks |
| `Masking.AuditExample` | finetune/rendering.py:101-127 | succeeds exactly when the example renders and its runs match the trained contents |
| `Masking.MaskingRoundTrip` | finetune/rendering.py:51-127 | under a ChatML tokenizer the maximal runs the audit finds are exactly, in order, the bodies of the trained turns; headers, untrained turns and other roles are ignored throughout |
| `Masking.AuditPasses` | finetune/rendering.py:101-127 | the audit passes on every example that renders, and an example renders exactly when it is free of markers, fits, and has something trained |
| `Masking.CharactersAreChatML` | finetune/rendering.py:41-48 | such tokenizers exist |
| `JsonGrammar.DecodePrint` | src/quellgeist/agent/actions.py:33-38 | decoding a printed JSON value, whatever follows it, gives back the value and what follows |
| `JsonGrammar.DecodeMeans` | src/quellgeist/agent/actions.py:33-36 | a value is decoded from the start of a text exactly if the grammar writes that value as a beginning of the text, whatever the blanks, escapes and number forms, and nothing beyond it is read |
| `Actions.ExtractJson` | src/quellgeist/agent/actions.py:20-43 | returns the leftmost object that the grammar writes anywhere in the text, and fails exactly when it writes none; without a brace with the error for that |
| `Actions.PrintedIsFound` | src/quellgeist/agent/actions.py:20-43 | a printed object is found behind any preamble in which no object starts, and before any suffix |
| `Actions.ExtractPrinted` | src/quellgeist/agent/actions.py:20-43 | in particular behind any preamble without a brace |
| `Kappa.GuardMeansUnanimous` | evals/validate_judge.py:91-103 | the division guard fires only for two constant and equal raters, so its `else` is never taken |
| `Kappa.KappaIsBeyondChance` | evals/validate_judge.py:91-103 | kappa by counts: it times what chance leaves is the agreement beyond chance, over the pairs in which both say yes or both say no; 1 for unanimous raters |
| `Kappa.KappaMeasuresAgreement` | evals/validate_judge.py:91-103 | kappa lies in [-1, 1] and is 1 exactly when the raters agree everywhere |
| `Kappa.KappaIsSymmetric` | evals/validate_judge.py:91-103 | kappa is symmetric |
| `Contamination.FindBankTokens` | evals/training/contamination.py:94-100 | the guarded scan returns exactly the tokens that occur with no word character next to them |
| `Contamination.AnyOfEnds` | evals/training/contamination.py:77-84 | backtracking reaches every alternative that matches, wherever it stands |
| `Contamination.TokenSearch` | evals/training/contamination.py:87-91 | the per-token pattern finds exactly the bounded occurrences |
| `Contamination.OccursMeans` | evals/training/contamination.py:67-80 | an occurrence is the token with something before and after it and no word character next to it on either side |
| `Contamination.GuardIsExact` | evals/training/contamination.py:77-84 | the single alternation finds something exactly when some token occurs |
| `Contamination.OrderIsIrrelevant` | evals/training/contamination.py:77-84 | the order of the alternatives does not matter |
| `Contamination.LongestAloneFails` | evals/training/contamination.py:77-84 | without going back to a shorter alternative the guard would miss a token |
| `Resolution.RoutesPartition` | src/quellgeist/orchestrator/resolution.py:189-207 | residual, recovered and unconfirmed routes partition the error routes |
| `Resolution.VerdictMeans` | src/quellgeist/orchestrator/resolution.py:209-238 | for any texts and the order of texts: 'recovered' means some route failed and every one that did is attributable, seen since and without an error since; 'not_recovered' means some route still fails |
| `Resolution.VerdictInTime` | src/quellgeist/orchestrator/resolution.py:189-238 | for canonical timestamps, told by instants, levels, statuses and routes alone: 'recovered' exactly when some route failed before the boundary and each that did was seen at or after it without an error; 'not_recovered' exactly when one failed before and still fails |
| `Resolution.RoutesMean` | src/quellgeist/orchestrator/resolution.py:189-207 | the four lists of routes in the same terms |
| `Resolution.ErroneousIsError` | src/quellgeist/orchestrator/resolution.py:82-98 | an error row: one of four levels in any case, or a status of 500 or more as a number or in digits |
| `Resolution.OrderIsIrrelevant` | src/quellgeist/orchestrator/resolution.py:189-238 | for a fixed boundary neither the order nor the repetition of rows matters |
| `Resolution.NotRecoveredSurvives` | src/quellgeist/orchestrator/resolution.py:189-238 | no further rows turn 'not_recovered' into anything else |
| `Resolution.RecoveredIsLostTo` | src/quellgeist/orchestrator/resolution.py:189-238 | later rows take 'recovered' away exactly when one is an error on a signature route |
| `Resolution.LatestDeployIsLatest` | src/quellgeist/orchestrator/resolution.py:101-112 | the chosen deploy is strictly after the start and no later one exists |
| `Resolution.BoundaryMeans` | src/quellgeist/orchestrator/resolution.py:101-112 | for any texts: the largest timestamp of a commit after the start; without one the run's end if it has one, else its start |
| `Resolution.BoundaryIsLatestDeploy` | src/quellgeist/orchestrator/resolution.py:101-112 | with canonical timestamps the boundary is the latest deploy after the start in time, or the end of the run |
| `Scenarios.AnchorIsThatMorning` | evals/scenarios/generator.py:42 | the anchor is 2026-05-01T08:00:00Z in seconds of the epoch |
| `Scenarios.MakeScenario` | evals/scenarios/generator.py:328-459 | the generator, given its draws, computes the specified scenario |
| `Scenarios.CanonicalIsFaithful` | evals/scenarios/generator.py:296-297 | written timestamps are read back and ordered as their instants |
| `Scenarios.LinesInOrder` | evals/scenarios/generator.py:388-411 | the sorted rows are in time order, all errors from the first-error time on, one exactly then |
| `Scenarios.LinesAre` | evals/scenarios/generator.py:388-405 | every line is of the burst (on the route, a multiple of the gap after the deploy), of the healthy baseline before the deploy, or the noise on the other route, and each error of the burst is there |
| `Scenarios.RowTells` | evals/scenarios/generator.py:405-419 | one row for each line, numbered in time order; status 500 and level ERROR exactly for the errors |
| `Scenarios.CitingGoldPasses` | evals/judge.py:28-51 | a diagnosis whose top hypothesis cites all of the gold passes the judge |
| `Probes.IdsInTimeOrder` | evals/scenarios/generator.py:411-422 | log ids are 0 to N-1 in time order, on every draw |
| `Probes.ImpossibleTold` | src/quellgeist/agent/timing_verifier.py:63-89 | the timing check in terms of what the rows say: some commit is cited and some error precedes every cited one |
| `Probes.GoldHolds` | evals/judge.py:28-51 | on a solvable scenario a diagnosis that cites the gold passes, fabricates nothing and survives timing |
| `Probes.GeneratedIsSolvable` | evals/scenarios/generator.py:441-453 | on every draw the gold names one culprit, no later than any error, and only what is there |
| `Probes.GeneratedGoldHolds` | evals/scenarios/generator.py:328-459 | on every draw the gold diagnosis passes the judge with no fabrication and survives the timing check |
| `Variants.StructureProbesStaySolvable` | evals/training/probes.py:71-139 | each of the four structure recipes leaves the gold diagnosis right, on every draw |
| `Variants.OnlyDecoysRestyled` | evals/training/probes.py:96-110 | restyling leaves the culprit alone and changes message and files, nothing else, of every other commit |
| `Variants.SpreadIdsAreNew` | evals/training/probes.py:111-132 | the second route's rows get ids past all others |
| `PositionalScript.ScriptAlwaysPasses` | evals/training/probes.py:83-93 | the positional script passes on every generated scenario |
| `PositionalScript.ScriptAlwaysFails` | evals/training/probes.py:83-93 | and fails on every one once an innocent commit is newer than the culprit |
| `Variants.TimeShiftIsCaught` | evals/training/trajectories.py:178-188 | on every shifted scenario the timing check forces abstention exactly when each hypothesis cites the culprit and not the decoy |
| `Variants.FooledAbstains` | evals/training/timing_probes.py:70-94 | every timing probe is caught |

## Left out

- HTTP: request parsing, body caps, signatures, bearer checks, pages. A delivery starts at the per-incident lock and ends at its answer; a review is the locked call.
- SQLite: connections, migrations and partial commits. Each writer is one atomic commit that may raise.
- A request cancelled while its thread runs, and logging that itself raises after the 'pending_review' write.
- Graceful stop of the worker pool: a stop that leaves nothing running is a crash with no one at work.
- A write fails as a whole and leaves no trace; discarding a directory is one step that may silently do nothing.
- `stop`, the drain time-out, and the number of attempts a client makes.
- The language model, Slack and file copying: a provider and an examiner are arbitrary functions, publishing appends to a log, a directory is a value.
- Usage accounting, traces and metrics notes in records; the wording of messages and reasons beyond the prefixes the code relies on.
- The last commit that `from_git_log_text` keeps appending to is an element of a list of values, not an aliased dictionary.
- Rows, commits and records are values: in-place updates of dictionaries are field updates, so aliasing between rows is not captured; the message list shared by loop, provider and result is.
- Non-string `action` values; unhashable handles, which raise outside the loop's guard; the equality of `True` and 1 as keys.
- Commits whose timestamps are all numbers, which the original sorts and the model counts as raising.
- `TimingVerifier.VerifyTiming`: the timestamp reader is an arbitrary function, so mixing naive and aware date-times, which raises, is not captured.
- `Normalize.OffsetsKeepTheirInstant`: fractions of a second in an offset, basic formats and week dates go to an arbitrary reader.
- `Normalize.NormalizeTsTwice`: what `strftime` writes for the years 1 to 999 depends on the platform (padded or not) and is an arbitrary text that is not canonical; it is taken to read back as the same instant or, as the unpadded form does, not at all.
- Floating-point values in rows, epochs among them; numeric texts that are no whole number; white space and case outside ASCII.
- `JsonGrammar.DecodeMeans`: numbers are kept as literals, an unpaired surrogate escape reads as U+FFFD, repeated keys are kept in order, and nesting has no depth limit.
- `normalize_commits`, `normalize_metric_series`, the Prometheus and GitHub shapes, and turning the text of a log file into raw rows: the same kind of field picking as log rows, without ids.
- `Masking.MaskingRoundTrip`: the rendering of the empty conversation is empty, as in a template that renders messages one by one.
- `Resolution.VerdictMeans`: the lookup of the run, the metric notes and the appended event; the lists of routes are sets; a timestamp that is a list compares by its opening bracket.
- `Scenarios.MakeScenario`: the draws and bank entries are arguments, metric point values among them; commit file lists are one text.
- `take_scenarios`, corpus assembly, the other abstention recipes and the prose templates.
- Token banks, template expansion, and the id and sha vetoes of the contamination checks.
- Loading, running and printing the judge validation; only the kappa arithmetic is modelled, over exact reals.
