# Verified models of RegEngine's operator scripts

RegEngine's operator scripts hold protocols that must survive failing inserts,
failed commits, crashes and races. This project models them in Dafny and proves
what they are for. Nothing here runs the scripts.

| Files | Subject |
|---|---|
| `Canonical`, `Reconstruction` | The hash preimage, the lossy dual write, and inverting it with the stored hash as an oracle |
| `BackfillRules`, `BackfillResume`, `BackfillConvergence` | The decision for one row, what passes and resumed runs do to the canonical store, and where repeated bounded runs end |
| `BackfillSteps` | What rows, batches, a tenant's walk and a whole run come to under any faults, on values |
| `BackfillRun` | The script's own state: savepoints, buffered successes, outer commits, counters, audit report, resume cursors, the tenant loop |
| `BackfillHistory` | Any history of runs, and undisturbed runs repeated until they settle |
| `ReviewPlan`, `ReviewLedger` | The request plan and the write-ahead ledger that sends each request at most once within a budget |
| `KeyPublication` | Minting, publishing and revoking keys by processes that race on one file |
| `ModuleContext` | Switching `sys.modules`, `sys.path` and package links between services |
| `ImportSearch` | Depth-first search over a cyclic import graph with a shared visited set |
| `Versions`, `Specifiers` | The version order with pairwise padding, specifiers, floors and the lock guard |
| `RevisionGraph` | Orphans and heads of the migration graph |
| `ThresholdSweep` | The confidence sweep and the recommended threshold |
| `Common` | Options and facts about filtering sequences |

How the models are built:

- **Failures.** A script's faults are a parameter that says which steps raise
  (`BackfillSteps.Faults`) or how each step of the disk and the network goes
  (`ReviewLedger.Fate`), so every statement is for all fault patterns. The
  backfill records a snapshot at every step that changes the durable store, the
  counts or the report; `Valid()` says that every snapshot was honest, which is
  what an observer finds wherever the run is cut off.
- **Hashing and rendering.** SHA-256, `json.dumps` and number rendering are
  function values in `Canonical.Externals`. Where a result needs it,
  `CollisionFree` is an explicit precondition: equal digests have equal
  preimages. The preimage itself is the real pipe-joined text. `IdentityFaithful`
  (identities render differently when they differ) and `RendersWithin` (leaving
  KDEs out of a rendering adds no separator) are preconditions in the same way.
- **Two descriptions, one proof.** Each imperative method is tied to a function
  of its old state (`ApplyAll`, `Inserted`, `HandleRows`, `Step`, `SwitchedTable`,
  `Session`), and the laws are proved of that function over every run.

What the proofs found:

- A destination-only event whose location is written with nothing but `|`
  reconstructs as origin-only. `ReconstructionExact` shows that this is the only
  shape read wrongly, and `DestinationOfPipesIsMisread` gives the input.
- `--limit` bounds only the rows of tenants that did not raise: a raising
  tenant's count is lost with the exception. `RunTenants` states exactly when a
  run exceeds its limit and by how much it can, and `QuietRun` that it does not
  when nothing raises; `LimitOverrun` is a run with limit 1 that examines 2 rows.
- An outer commit that lands and then raises leaves durable rows that the report
  calls rolled back and the counters do not know; nothing else does
  (`RolledBackYetDurableIff`, with the batch `RolledBackYetDurable`).
- A key file can be left holding a revoked key, exactly when a step between the
  link and the end of the write raises and the revocation succeeds
  (`RevokedInDestinationIff`, with the run `RevokedKeyLeftBehind`).
- A run whose store does not close after a good write ends in an exception with
  its key active and published and says nothing of it (`ActiveKeyUnreported`).
  `AccountedIff` shows that a close that raises, then or over the message of a
  failure, and a death of the process are the only ways for a run that minted a
  key to end without telling its operator what became of it.
- A dev release of the final version follows its pre-releases (`ReleaseCycle`:
  1.0rc1 before 1.0.dev3); PEP 440 puts it before them.
- After a switch every submodule is attached to its parent exactly when the names
  of one package object agree on its children (`SwitchTo`); `AliasedPackage` is a
  table on which they do not.
- `~=` looks at the epoch only through `>=`, so a pin of a later epoch passes by
  prefix alone, and a pin shorter than the prefix is refused even where the
  order calls it equal to the bound. `CompatibleIsRange` states exactly which
  pins pass.
- `==X.*` admits the pre-releases and dev releases of X itself, which lie below
  the floor the guard derives from the same clause (`WildcardBelowBoundIff`,
  `PlainWildcardBelowBoundIff`, and the pin 2.7rc1 in `CandidateBelowItsFloor`).
- A service specifier made of `>`, `<=`, `<` and `!=` passes the floor check whatever
  it says. `OpenBelowKeepsFloorIff` states exactly when it keeps the floor all the
  same; `<9` does not (`CapAloneIsClean`).
- The migration guard passes graphs with a detached cycle
  (`DetachedCyclePasses`); `HeadCoversIff` and `UpgradeOrderIff` say what
  passing means with and without cycles.

## Model

| member | source | states |
|---|---|---|
| `Canonical.PreimageSplit` | services/shared/canonical_event.py:477-493 | The pipe-joined preimage is the text before the facility fields, the two facilities, and the text after them |
| `Canonical.SameHashSameFacilities` | regengine/verify_records.py:109-125 | Events that agree outside the facility fields hash alike exactly when origin, separator and destination spell the same text |
| `Canonical.PreimageText` | services/shared/canonical_event.py:477-493 | The preimage is the ten fields in order with one separator between each two |
| `Canonical.SameKeyIff` | services/shared/canonical_event.py:495-532 | Two events share an idempotency key exactly when they agree in type, lot, timestamp, source, both facilities (NULL and '' alike) and KDEs |
| `Canonical.ForwardSays` | services/shared/canonical_persistence/legacy_dual_write.py:76-330 | Exactly what the dual write keeps and loses: null KDEs, the second facility, NULL against '' products, and every status but rejection |
| `Reconstruction.RunReconstruct` | scripts/backfill_canonical_from_legacy.py:449-486 | The search with early exits returns the first split that reproduces the stored hash, or the one refusal whose condition holds: quantity not positive; the hash of the legacy-native text; a field rule broken; otherwise unreconstructible |
| `Reconstruction.ReconstructSays` | scripts/backfill_canonical_from_legacy.py:449-486 | Each answer, proof or reason, with the exact condition under which it is given, in terms of the row's fields, the readings of its location and the legacy-native text |
| `Reconstruction.ProofSays` | scripts/backfill_canonical_from_legacy.py:464-479 | A proof is the row read with the first facilities that reproduce its hash, and says which reading that is and whether an empty product became NULL |
| `Reconstruction.NativeFormula` | services/shared/cte_persistence/hashing.py:65-110 | The legacy-formula probe holds exactly when the stored hash is that of the text a legacy-native writer hashes for the row |
| `Reconstruction.NativeRowIsRefused` | scripts/backfill_canonical_from_legacy.py:489-513 | A legacy-native writer's row is refused as such whenever no reading reproduces its hash, and, by the separators of the two texts, none ever does |
| `Reconstruction.StatusIrrelevant` | scripts/backfill_canonical_from_legacy.py:406-486 | The status never decides whether, or as what, a row is proven |
| `Reconstruction.NullFreeKdesSurvive` | services/shared/canonical_persistence/legacy_dual_write.py:235-330 | KDEs without nulls survive the dual write, so every such event meets the hypotheses of `ReconstructionExact` |
| `Reconstruction.ReproducesIff` | scripts/backfill_canonical_from_legacy.py:387-403 | On a forward-mapped row a split reproduces the hash exactly when it spells the original facility text |
| `Reconstruction.SplitsOfLocation` | scripts/backfill_canonical_from_legacy.py:387-403 | Which of the three splits of a location spell the original pair |
| `Reconstruction.ReconstructionExact` | scripts/backfill_canonical_from_legacy.py:387-486 | A row forward-mapped from a positive-quantity event is proven exactly when one facility is absent or both are equal, and is otherwise refused as unreconstructible when leaving out description KDEs adds no separator to their rendering; the pair found is the original (NULL and '' alike) exactly when the event is not a destination made only of separators |
| `Reconstruction.UnprovenReason` | scripts/backfill_canonical_from_legacy.py:481-486 | An unproven forward-mapped row is called the legacy-native writer's exactly when that writer's text and the event's preimage coincide, and unreconstructible otherwise |
| `Reconstruction.DestinationOfPipesIsMisread` | scripts/backfill_canonical_from_legacy.py:387-486 | A destination written as one separator comes back as an origin written as one separator |
| `Reconstruction.ProvenMapsBack` | scripts/backfill_canonical_from_legacy.py:406-439 | Mapping a proven event forward again gives back every column the legacy row carried |
| `BackfillRules.StatusSays` | scripts/backfill_canonical_from_legacy.py:691-718 | A written row is rejected exactly when the legacy row is, superseded exactly when it is not and some canonical row names it as superseded, active otherwise, and assumed exactly then |
| `BackfillRules.WriteSays` | scripts/backfill_canonical_from_legacy.py:751-796 | A written row is the proven reading under its own idempotency key with the legacy row's hash, chain hash and ingestion time |
| `BackfillRules.RefusalSays` | scripts/backfill_canonical_from_legacy.py:1118-1169 | Each refusal with its exact condition, stated over the rows of the store: ambiguous status, taken id, taken key, and the reconstruction's own reason |
| `BackfillRules.ApplyAllGrows` | scripts/backfill_canonical_from_legacy.py:1201-1227 | A pass only adds rows to the canonical store, and none of them supersedes anything |
| `BackfillRules.RefusalIsPermanent` | scripts/backfill_canonical_from_legacy.py:1128-1169 | A row refused against one store is refused against every store this script can make of it |
| `BackfillRules.RowSettled` | scripts/backfill_canonical_from_legacy.py:1128-1227 | After a pass each row without a failing insert is stored as decided or still refused |
| `BackfillRules.SecondPassWritesNothing` | scripts/backfill_canonical_from_legacy.py:138-141 | After a full pass every remaining orphan is refused, and a second full pass leaves the store as it is |
| `BackfillRules.WritesFaithfulTwin` | scripts/backfill_canonical_from_legacy.py:751-796 | A written row carries the legacy hash, recomputes to it, and maps forward to the legacy row's columns |
| `BackfillRules.StoreStaysVerifiable` | scripts/backfill_canonical_from_legacy.py:465-473 | Whatever inserts fail, each added row is the faithful twin of a legacy row, and a store whose rows all recompute to their hashes stays so |
| `BackfillRules.ExecuteWithinDryRun` | scripts/backfill_canonical_from_legacy.py:1163-1199 | Every row an execute run inserts is one a dry run from the same state reports, whatever inserts fail |
| `BackfillRules.StoreContents` | scripts/backfill_canonical_from_legacy.py:751-796 | After a pass the store holds the old rows unchanged and one row under the id and key of each inserted row, and nothing else |
| `BackfillRules.ExecuteIsFirstPerKey` | scripts/backfill_canonical_from_legacy.py:799-821 | With no failing insert, execute writes exactly the first would-be row of each idempotency key |
| `BackfillRules.DryRunIsExactIff` | scripts/backfill_canonical_from_legacy.py:1163-1199 | Dry run and execute name the same rows exactly when no two would-be rows share an idempotency key |
| `BackfillResume.StartIndex` | scripts/backfill_canonical_from_legacy.py:978-984 | A resuming run starts right after its cursor exactly when the cursor is still an orphan, and from the beginning otherwise |
| `BackfillResume.StepSkipsNothing` | scripts/backfill_canonical_from_legacy.py:978-1030 | A run cut off anywhere keeps: every orphan at or before the cursor was examined in a committed batch |
| `BackfillResume.ResumeSkipsNothing` | scripts/backfill_canonical_from_legacy.py:633-655 | Over any sequence of runs, an orphan the next resuming run would pass over has been examined |
| `BackfillConvergence.StepProgresses` | scripts/backfill_canonical_from_legacy.py:978-1030 | A run with something ahead of its cursor leaves fewer orphans, or the same store and fewer orphans ahead |
| `BackfillConvergence.RunsSettle` | scripts/backfill_canonical_from_legacy.py:978-1030 | Repeated runs that resume, with a limit of at least one and their worklists committed and saved, reach a point with nothing ahead and every orphan refused, within a number of runs given by the orphans left and those ahead of the cursor |
| `BackfillConvergence.SharedHashUnprovable` | scripts/backfill_canonical_from_legacy.py:465-473 | Of two legacy rows that share a hash, at most one can be proven |
| `BackfillConvergence.LateTwinIsUnprovable` | scripts/backfill_canonical_from_legacy.py:633-655 | An orphan that stops being one because a sibling brought in its hash was never provable |
| `BackfillConvergence.BoundedRunsReachFullPass` | scripts/backfill_canonical_from_legacy.py:978-1030 | Starting with n orphans, from run n(n+1)/2 on bounded resumed runs leave the store exactly as one unbounded pass over the original orphans would, with every remaining orphan refused |
| `BackfillRun.Judge` | scripts/backfill_canonical_from_legacy.py:1118-1169 | Status, proof by hash, then the two conflict checks; the status a write stores, the event it stores and each refusal have their exact condition over the rows of the store, and a write is a faithful twin under a free id and a free key |
| `BackfillSteps.BalancedSteps` | scripts/backfill_canonical_from_legacy.py:841-860 | Each counter operation keeps: examined = backfilled + skipped + lost + buffered + in hand, reasons sum to skipped, hypotheses to backfilled, present + orphans to the total |
| `BackfillSteps.PastSurvivesCommit` | scripts/backfill_canonical_from_legacy.py:1003-1005 | A commit that keeps every durable row keeps every earlier snapshot honest |
| `BackfillSteps.CommitKeeps` | scripts/backfill_canonical_from_legacy.py:1003-1005 | Committing a batch loses no durable row of any tenant and makes every row the batch inserted durable |
| `BackfillSteps.HandledRows` | scripts/backfill_canonical_from_legacy.py:995-1002 | Rows handled in one transaction are a pass of the store model: its inserted rows are buffered in order (or named, in a dry run) and nothing is claimed yet |
| `BackfillSteps.RowSays` | scripts/backfill_canonical_from_legacy.py:1118-1227 | What one row changes, counter by counter: a refusal and its reason, a dry run's name, a failed insert as refusal and error, or a buffered insert that is neither counted nor reported |
| `BackfillSteps.CountAllSays` | scripts/backfill_canonical_from_legacy.py:1075-1087 | Counting the buffered successes of a batch adds their number and their hypotheses and moves no other counter |
| `BackfillSteps.BatchFates` | scripts/backfill_canonical_from_legacy.py:988-1030 | When a batch goes through, when its inserts are durable and when it stops the tenant, step by step |
| `BackfillSteps.BatchTallies` | scripts/backfill_canonical_from_legacy.py:988-1027 | However a batch ends, the counters of refusals by reason and of successes stay those of the report |
| `BackfillSteps.WorklistWithinLimit` | scripts/backfill_canonical_from_legacy.py:978-986 | A run takes up the first of the orphans that remain after the cursor, exactly as many as the limit allows |
| `BackfillSteps.BatchMeans` | scripts/backfill_canonical_from_legacy.py:988-1027 | What a batch leaves durable, claimed and lost, in terms of the store model, for every fault: claimed keys are the inserted ones exactly when the batch went through, lost rows are its uncounted inserts and the row in hand |
| `BackfillSteps.ClosingReport` | scripts/backfill_canonical_from_legacy.py:1011-1027 | The records a batch closes with claim exactly its buffered rows, and only when it went through |
| `BackfillSteps.RolledBackYetDurableIff` | scripts/backfill_canonical_from_legacy.py:1006-1014 | A row the batch buffered is reported as rolled back while it is in the durable store exactly when all rows were handled and the commit raised after landing |
| `BackfillSteps.BufferedAreNew` | scripts/backfill_canonical_from_legacy.py:799-821 | The rows a batch buffers were not in the durable store before it |
| `BackfillSteps.WalkHalts` | scripts/backfill_canonical_from_legacy.py:987-1030 | Where a batch that raises leaves its tenant: whole batches before it, and of the batch itself what its faults let through |
| `BackfillSteps.ShareFacts` | scripts/backfill_canonical_from_legacy.py:953-1045 | A tenant's share loses no more rows than it examined and examines no more than its worklist; one that did not raise lost nothing and has its whole worklist committed and saved |
| `BackfillSteps.TenantAccount` | scripts/backfill_canonical_from_legacy.py:953-1045 | What one tenant's share adds to the rows examined, lost, in error, and counted or named |
| `BackfillSteps.QuietCompletes` | scripts/backfill_canonical_from_legacy.py:953-1045 | A tenant none of whose steps raises does not raise, whatever the limit and the batch size |
| `BackfillSteps.ExecutedIsStep` | scripts/backfill_canonical_from_legacy.py:953-1045 | Wherever a tenant's share stops, its store and its cursors in memory and on disk are one step of the run model that the resume and convergence theorems speak of |
| `BackfillSteps.OneMoreTenant` | scripts/backfill_canonical_from_legacy.py:1397-1412 | Serving one more tenant leaves the earlier shares as they were, except that its saves also write their cursors, and touches no other tenant |
| `BackfillSteps.MeteredTotals` | scripts/backfill_canonical_from_legacy.py:1398-1406 | Tenants that did not raise are charged no more than the limit in all, and rows are lost only by tenants that raised |
| `BackfillSteps.RunTotals` | scripts/backfill_canonical_from_legacy.py:1398-1412 | Examined rows are the charged ones plus those of tenants that raised; the limit is exceeded exactly when the latter exceed what the former left of it, and never by more than the limit for each tenant; lost rows are the shares' losses |
| `BackfillSteps.QuietRun` | scripts/backfill_canonical_from_legacy.py:1398-1412 | When no step of any tenant raises, dry or not: no tenant raises, the limit holds, nothing is lost and nothing is in error |
| `BackfillSteps.MoreDry` | scripts/backfill_canonical_from_legacy.py:1186-1199 | In a dry run each tenant's share is the one its faults allow from where the run began, and the rows named are exactly those of the shares, in order |
| `BackfillRun.Backfill.constructor` | scripts/backfill_canonical_from_legacy.py:1393-1395 | A run starts with zero counters, an empty report and the cursors of the state file |
| `BackfillRun.Backfill.Emit` | scripts/backfill_canonical_from_legacy.py:1048-1052 | A record is appended only when a report was asked for; a "backfill" record needs a durable row |
| `BackfillRun.Backfill.ProcessRow` | scripts/backfill_canonical_from_legacy.py:1118-1227 | One row: exactly the decided change to the transaction's view, the buffer, the counters with their reason or hypothesis, and the report; a raised query loses exactly this row |
| `BackfillRun.Backfill.ProcessRows` | scripts/backfill_canonical_from_legacy.py:995-1002 | The rows of a batch up to the first whose queries raise |
| `BackfillRun.Backfill.ApplyOldest` | scripts/backfill_canonical_from_legacy.py:1075-1087 | A buffered success is counted and reported once, and only when its row is durable |
| `BackfillRun.Backfill.ApplyPending` | scripts/backfill_canonical_from_legacy.py:1020-1024 | After a commit exactly the buffered successes are counted, each under its hypothesis, and reported, in order |
| `BackfillRun.Backfill.Commit` | scripts/backfill_canonical_from_legacy.py:1003-1005 | The transaction's view becomes the durable store, and nothing that was durable goes |
| `BackfillRun.Backfill.Rollback` | scripts/backfill_canonical_from_legacy.py:1090-1115 | The buffered successes are dropped uncounted, accounted as lost, and reported as rolled back |
| `BackfillRun.Backfill.ProcessBatch` | scripts/backfill_canonical_from_legacy.py:988-1027 | A batch that goes through counts and reports exactly the rows it inserted; one that raises counts and reports none, and what it examined and never accounts for is stated exactly |
| `BackfillRun.Backfill.Advance` | scripts/backfill_canonical_from_legacy.py:1028-1030 | The cursor moves to the last row of a committed batch; the state file follows unless saving raises |
| `BackfillRun.Backfill.ProcessBatches` | scripts/backfill_canonical_from_legacy.py:988-1045 | The walk stops at the first batch that raises; store, counts, cursors, examined and lost rows are exactly what its faults leave |
| `BackfillRun.Backfill.OpenTenant` | scripts/backfill_canonical_from_legacy.py:962-973 | The orphans are the legacy rows whose hash no canonical row carries; already-present and orphan counts add up to the tenant's legacy rows |
| `BackfillRun.Backfill.ProcessTenant` | scripts/backfill_canonical_from_legacy.py:953-1045 | One tenant under any faults: its share of the run, exactly; with none of its steps raising, the whole worklist is done, committed and saved; a dry run changes nothing durable and names exactly the rows that would be written |
| `BackfillRun.Backfill.RunTenants` | scripts/backfill_canonical_from_legacy.py:1397-1420 | Every tenant reached ends with the store and saved cursor of its own share and no other is touched; the rows counted and reported, or named by a dry run, are exactly those of the shares; examined = charged + uncharged and lost = the shares' losses, with the exact condition for exceeding the limit; exit code 0 exactly when no tenant raised and no insert failed; with nothing raising the limit holds and nothing is lost; the report refuses and claims exactly what the counters do |
| `BackfillHistory.LimitOverrun` | scripts/backfill_canonical_from_legacy.py:1398-1412 | Limit 1, two tenants with one orphan each, the first one's commit fails: 2 rows are examined |
| `BackfillHistory.RolledBackYetDurable` | scripts/backfill_canonical_from_legacy.py:1006-1014 | A batch of one writable row whose commit raises after landing: the row is durable, reported as rolled back, and not counted |
| `BackfillHistory.TenantTracks` | scripts/backfill_canonical_from_legacy.py:1397-1412 | A run takes every tenant it reaches one step further in the run model, store and state file alike, and leaves the others |
| `BackfillHistory.UnsavedRun` | scripts/backfill_canonical_from_legacy.py:918-945 | A run without a state file is one that neither resumes nor saves |
| `BackfillHistory.RunOnce` | scripts/backfill_canonical_from_legacy.py:1330-1420 | One run leads from one state to the next with the shares its own faults allow, which are what the history gains |
| `BackfillHistory.TookTracks` | scripts/backfill_canonical_from_legacy.py:1397-1412 | A run takes every tenant's recorded history to its store and saved cursor after the run |
| `BackfillHistory.HistoryIsAccountable` | scripts/backfill_canonical_from_legacy.py:633-655 | However the runs of a history go, each tenant's store and saved cursor are those of the runs recorded for it, and they examined every orphan the next run would pass over |
| `BackfillHistory.RunScripts` | scripts/backfill_canonical_from_legacy.py:1330-1420 | Any runs of the script, dry or not, with a state file or without, under any status policy, whatever raises: stores and state file arise run by run from these arguments and faults, the history records each run's own shares, and no orphan the next run would pass over is unexamined by them |
| `BackfillHistory.RepeatRuns` | scripts/backfill_canonical_from_legacy.py:1397-1412 | The script run again and again over the same tenants with a state file, one limit of at least one between them and nothing raising: after the sum of m(m+1)/2 runs over the tenants, each with its m orphans, every remaining orphan of every tenant is refused and each store is that of one unbounded pass |
| `BackfillHistory.FirstAheadProgresses` | scripts/backfill_canonical_from_legacy.py:1398-1406 | Tenants with nothing ahead of their cursors use up nothing of the limit, so the first tenant with something ahead gets it and leaves fewer orphans or fewer ahead |
| `BackfillHistory.QuietRunUsesARound` | scripts/backfill_canonical_from_legacy.py:1398-1412 | While some tenant is unfinished an undisturbed run lowers the rounds the tenants need between them, and no tenant that is finished becomes unfinished |
| `ReviewPlan.NameDeterminesSlot` | scripts/jev_review_eval.py:124-132 | A request name determines model, case id and variant |
| `ReviewPlan.RankIsLexicographic` | scripts/jev_review_eval.py:110-132 | Requests are ordered by model, then case, then base before reordered |
| `ReviewPlan.CombinationsAreRequests` | scripts/jev_review_eval.py:110-132 | The plan asks both models about every case, about an original control twice, and nothing else |
| `ReviewPlan.BuildPlan` | scripts/jev_review_eval.py:104-133 | A built plan holds the requests of all model, case and variant combinations by their text, each once and in that order, within the body bound; its names are all different exactly when the case ids are; each error has its exact cause |
| `ReviewLedger.SolventCoversUsage` | scripts/jev_review_eval.py:203-241 | In a solvent ledger the estimated usage never exceeds the reserved money |
| `ReviewLedger.RecordedKeepsSafe` | scripts/jev_review_eval.py:186-263 | Recording one more attempt in any status keeps: no name sent twice, everything sent recorded, reserved = attempts × reservation ≤ budget, terminal status implies a written response |
| `ReviewLedger.RecordsSay` | scripts/jev_review_eval.py:235-263 | On every disk a run can leave, a complete record's reply was accepted, a contract-rejected one's was not, an ambiguous one had none, and the input tokens are the sum over the scored replies |
| `ReviewLedger.LookUp` | scripts/jev_review_eval.py:191-202 | A name has at most one record, and a settled one has its saved response, so the run never stops for a missing one |
| `ReviewLedger.RecordedKeepsStep` | scripts/jev_review_eval.py:191-263 | Under a fixed plan recorded names stay a prefix of the plan, and only the last record can be unsettled |
| `ReviewLedger.WithinPlanBudget` | scripts/jev_review_eval.py:203-204 | A budget that covers the plan covers the next request |
| `ReviewLedger.AllPassed` | scripts/jev_review_eval.py:191-264 | A run that passed every request has sent each once, in order, and left none unsettled |
| `ReviewLedger.Evaluator.Save` | scripts/jev_review_eval.py:186-189 | The ledger on disk is the old or the new one, never a mixture |
| `ReviewLedger.Evaluator.WriteResponse` | scripts/jev_review_eval.py:249-249 | Only the named response file changes, and it is complete when the write returns |
| `ReviewLedger.Evaluator.Transmit` | scripts/jev_review_eval.py:209-219 | Callable only for a name that was never sent and whose pending record is the last one on disk |
| `ReviewLedger.Evaluator.Request` | scripts/jev_review_eval.py:205-263 | Wherever it is cut off, one request adds at most its own record and is sent at most once, after that record; when the run goes on it is sent and settled on disk, complete exactly when the reply was accepted, with the reply's tokens added; when no step fails, status, tokens and going on are exactly what the reply calls for |
| `ReviewLedger.Evaluator.Settle` | scripts/jev_review_eval.py:235-251 | The final status is saved after the response is written: complete exactly for an accepted reply, contract-rejected exactly for a rejected one |
| `ReviewLedger.Evaluator.FailWithResponse` | scripts/jev_review_eval.py:252-263 | A failure with a response in hand keeps the response before recording the failure |
| `ReviewLedger.Evaluator.RecordAmbiguous` | scripts/jev_review_eval.py:257-263 | Without an answer the record on disk stays pending or becomes ambiguous, and is never settled |
| `ReviewLedger.Evaluator.PassItem` | scripts/jev_review_eval.py:191-208 | One entry of the plan is passed over, refused or requested, each refusal with its exact condition on the ledger; without a failing step, under a fixed plan with nothing unsettled and a covering budget, the run goes on |
| `ReviewLedger.Evaluator.Run` | scripts/jev_review_eval.py:157-264 | For every plan and every fault: the disk stays safe, each record says what its reply was, the tokens are those of the scored replies, a finished run has settled every request, and a run is killed only by a step that may kill. Under a fixed plan: records stay in step, an unsettled record stops everything, a finished run sent the whole plan once in order, and a covering budget is never exhausted; with nothing unsettled and no step failing the run finishes |
| `ReviewLedger.Evaluator.RunMany` | scripts/jev_review_eval.py:157-264 | Over any sequence of runs and crashes no name is sent twice and reserved money stays within budget |
| `KeyPublication.WriteKeepsSelf` | scripts/create_test_api_key.py:151-225 | The write loop keeps a prefix of the key in the temporary file, and all of it once it ends |
| `KeyPublication.DestStable` | scripts/create_test_api_key.py:151-225 | An existing destination is changed only by a process told to replace it, in its publishing step |
| `KeyPublication.StepFramed` | scripts/create_test_api_key.py:151-225 | A step touches only its own process, temporary file and key, and the destination only when publishing |
| `KeyPublication.StepCoherent` | scripts/create_test_api_key.py:463-498 | Every step of every process keeps the invariant: keys are distinct, revoked exactly by those that say so, and publishers' keys are in the destination |
| `KeyPublication.DestinationNeverChanges` | scripts/create_test_api_key.py:102-225 | Without the replace flag the destination never changes once it exists, in any interleaving |
| `KeyPublication.RunsEndWell` | scripts/create_test_api_key.py:463-500 | A run that succeeds leaves its key active and in the file; one that says it revoked its key has; any other ended run's key is revoked only if that was confirmed before its last step; a refused one minted none; what the file gained is one whole key |
| `KeyPublication.KeysEndWell` | scripts/create_test_api_key.py:463-500 | With any replace flags, what each ended run says of its key is so, and what the file gained is one whole key |
| `KeyPublication.LastPublisherHolds` | scripts/create_test_api_key.py:151-225 | With any replace flags, the destination is the initial one until some process publishes and from then on holds the whole key of the one that published last |
| `KeyPublication.PublishedOnce` | scripts/create_test_api_key.py:202-225 | A run that says it has published did so at exactly one entry of the trace |
| `KeyPublication.SucceededUnlessReplaced` | scripts/create_test_api_key.py:202-225 | A process that published has its key in the destination exactly when none published after it, and any that did was told to replace |
| `KeyPublication.SuccessHolds` | scripts/create_test_api_key.py:463-500 | A run that succeeded has its key active, and in the destination unless a process told to replace published later |
| `KeyPublication.LoneReplacement` | scripts/create_test_api_key.py:203-205 | A lone run told to replace an existing file succeeds, with its key in that file and no temporary one left |
| `KeyPublication.TempLeftIff` | scripts/create_test_api_key.py:182-224 | A run that ends alive leaves its temporary file behind exactly when removing it, after a failure, is what raised |
| `KeyPublication.TurnIffCaused` | scripts/create_test_api_key.py:463-500 | With any replace flags, a run's key is revoked, its close fails, its close fails over a failure's message, it dies, or it ends with a given message, exactly when the trace holds the one event that brings that about |
| `KeyPublication.AccountedIff` | scripts/create_test_api_key.py:477-500 | A run that minted and ended tells its operator what became of the key (in use, revoked, perhaps still active, or the revocation's exception) exactly when closing the store did not raise, after a good write or over a failure's message, and the process did not die |
| `KeyPublication.RevokedOrAccountedIff` | scripts/create_test_api_key.py:477-500 | Its key is revoked or its operator is told exactly when the store confirmed a revocation, or neither a close that raised nor its death cut it short |
| `KeyPublication.ActiveKeyUnreported` | scripts/create_test_api_key.py:499-500 | A run whose close raises after a good write: its key is published and active, and no revocation is attempted or reported |
| `KeyPublication.AtMostOneSucceeds` | scripts/create_test_api_key.py:102-225 | No two runs on one destination both succeed |
| `KeyPublication.AlwaysTraced` | scripts/create_test_api_key.py:151-225 | A process's key is in the destination only if it published there, and one that raised after its link stays there while the process is on its way out |
| `KeyPublication.RevokedInDestinationIff` | scripts/create_test_api_key.py:151-225 | The destination holds a process's key and that key is revoked exactly when the process raised between its link and the end of its write and its revocation succeeded |
| `KeyPublication.NoRevokedKeyInDestination` | scripts/create_test_api_key.py:151-225 | With no raise between a link and the end of its write, a destination the processes filled never holds a revoked key |
| `KeyPublication.RevokedKeyLeftBehind` | scripts/create_test_api_key.py:151-225 | A run exists that leaves a revoked key in the destination |
| `ModuleContext.ImportContext.constructor` | conftest.py:54-55 | The caches start empty |
| `ModuleContext.ImportContext.Evict` | conftest.py:71-84 | The name is removed and nothing else in the table, and a loaded parent loses exactly that attribute |
| `ModuleContext.ImportContext.Bind` | conftest.py:87-97 | The name is bound to the module and nothing else in the table, and a loaded parent gets exactly that attribute |
| `ModuleContext.ImportContext.RememberOwner` | conftest.py:58-119 | A module is cached for a service exactly when its file text names that service and it is a real file under it |
| `ModuleContext.ImportContext.SettleApp` | conftest.py:192-210 | One stale entry: the service's own real module stays, any other is replaced by the cached one or dropped, and its loaded parent's attribute follows |
| `ModuleContext.ImportContext.SettleShared` | conftest.py:222-231 | The same for one `shared` entry |
| `ModuleContext.ImportContext.SettleApps` | conftest.py:184-210 | Every `main`/`app` entry says what the active service's cache says, every owner's cache is updated, and no other name moves |
| `ModuleContext.ImportContext.SettleShareds` | conftest.py:212-231 | The same for the `shared` entries and their cache |
| `ModuleContext.ImportContext.Repair` | conftest.py:122-135 | Every loaded submodule of the tree is attached to its loaded parent exactly when names of one package object in the tree agree on its children; when all names do, no other tree's link is lost |
| `ModuleContext.ImportContext.SwitchTable` | conftest.py:166-250 | The table part of a switch equals its specification, and the caches hold only what they are for |
| `ModuleContext.ImportContext.SwitchTo` | conftest.py:166-259 | A whole switch: table and caches as specified; the path starts with the service's directory, holds no other service's, and keeps everything else in order and with repetitions; every submodule is attached to its parent exactly when names of one package object agree on its children |
| `ModuleContext.AliasedPackage` | conftest.py:122-135 | One package object under two names with different children: after a switch not every link is right |
| `ModuleContext.ImportContext.Replay` | conftest.py:166-259 | Any sequence of switches, imports, stubs and removals has the effect of the session function |
| `ModuleContext.SwitchShowsCache` | conftest.py:184-250 | Right after a switch the `main`/`app` entries are the service's cache, name for name, and unrelated entries are as before |
| `ModuleContext.SharedAfterSwitch` | conftest.py:212-238 | A real shared module stays where it is, any other is replaced by the remembered one or dropped, and of those not loaded only the package itself comes back |
| `ModuleContext.RememberedAfterSwitch` | conftest.py:184-210 | A switch remembers each real loaded module for the service whose file it came from and forgets nothing else |
| `ModuleContext.HeldThroughout` | conftest.py:58-119 | A remembered module stays remembered through any session that does not load another real module of its service under its name |
| `ModuleContext.ReturnRestoresIdentity` | conftest.py:233-250 | Leaving a service and coming back gives the identical object for each of its real modules |
| `ModuleContext.PathHasOneService` | conftest.py:252-259 | The path starts with the service's directory and holds no other service's |
| `ModuleContext.PathKeepsTheRest` | conftest.py:252-259 | Apart from service directories the path is the old one, in order and with repetitions; the active service's directory is there once, or as often as before |
| `ImportSearch.Search.Visit` | qa/frontend-security-scan.js:78-99 | Found means a reachable mention; not found means that every newly visited file was searched to the end |
| `ImportSearch.NothingToFind` | qa/frontend-security-scan.js:78-99 | From a file in a fully searched set no mention can be reached |
| `ImportSearch.ResolveSays` | qa/frontend-security-scan.js:50-76 | An import stands for the earliest of its candidates that is a file under the root, whatever is missing before it |
| `ImportSearch.FileReferencesTenant` | qa/frontend-security-scan.js:78-99 | On any import graph the search ends and returns true exactly when a reachable file mentions a tenant |
| `Versions.AnyWidth` | scripts/check_dep_versions.py:121-130 | Padding to any common width gives the same order: lexicographic on zero-extended releases |
| `Versions.OperatorsMean` | scripts/check_dep_versions.py:132-148 | Each of the five comparisons in terms of that reference order |
| `Versions.TotalPreorder` | scripts/check_dep_versions.py:121-148 | Total, transitive across release lengths, with ties exactly where versions are equal |
| `Versions.TrailingZeros` | scripts/check_dep_versions.py:121-130 | 2.0 and 2.0.0 are equal, for any version and any number of zeros |
| `Versions.WithinRelease` | scripts/check_dep_versions.py:94-119 | Within one release: alpha, beta, candidate, final; then the stage's number; then post-release, with none first; then dev release, with none last |
| `Versions.ReleaseCycle` | scripts/check_dep_versions.py:94-119 | 1.0a2, 1.0b1, 1.0rc1, 1.0.dev3, 1.0 and 1.0.post1 in the order the guard gives them |
| `Versions.AfterIsAtNext` | scripts/check_dep_versions.py:121-148 | Being after a version is being at or after the one whose last key part is raised by one |
| `Versions.MatchIffBelow` | scripts/check_dep_versions.py:160-164 | For same-epoch versions at or above a matching one and at least as long as the prefix, matching is staying below the prefix raised by one |
| `Versions.MatchesHaveNoGaps` | scripts/check_dep_versions.py:160-164 | Between two matching versions of one epoch every long enough version matches |
| `Specifiers.CompatibleIsRange` | scripts/check_dep_versions.py:199-206 | Exactly which pins `~=` accepts: the half-open interval in its own epoch, the prefix alone in later ones |
| `Specifiers.CompatibleIgnoresLaterEpochs` | scripts/check_dep_versions.py:199-206 | A pin beyond the interval that passes |
| `Specifiers.ShortPinIsRefused` | scripts/check_dep_versions.py:160-164 | A pin equal to the bound that is refused |
| `Specifiers.JudgeMeans` | scripts/check_dep_versions.py:172-206 | Each clause's outcome in terms of the reference order |
| `Specifiers.OperatorTable` | scripts/check_dep_versions.py:187-206 | What each operator makes of a pin before its bound, at it and after it, and when a compatible bound is too short |
| `Specifiers.WildcardTable` | scripts/check_dep_versions.py:172-186 | With a wildcard `==` and `!=` look at the release's first parts, `===` at the text, and the others read their bound without it |
| `Specifiers.PlainTable` | scripts/check_dep_versions.py:172-206 | Without one `===` looks at the text and every other operator at the bound, which may be unreadable |
| `Specifiers.SpecifierAllows` | scripts/check_dep_versions.py:167-211 | Satisfied exactly when every clause is met; otherwise the first unmet clause, whether its bound could be read and whether it was too short |
| `Specifiers.AllowedPinsHaveNoGaps` | scripts/check_dep_versions.py:167-211 | Between two allowed pins of one epoch every long enough version is allowed |
| `Specifiers.FloorsFrom` | scripts/check_dep_versions.py:277-290 | A package's floor is a greatest bound it declares: every readable `>=`, `==`, `~=` or `===` gives a floor at or above it, and a floor is one of these; it has none exactly when it declares none |
| `Specifiers.MeetsBound` | scripts/check_dep_versions.py:277-290 | A pin that meets a clause is at or above the bound read from it, `==X.*` aside |
| `Specifiers.WildcardBelowBoundIff` | scripts/check_dep_versions.py:277-290 | For every clause `==X.*` exactly which pins that meet it lie below the bound read from it, also where X has an epoch or a suffix |
| `Specifiers.ReleaseWildcardBelowBoundIff` | scripts/check_dep_versions.py:277-290 | Where X spells its release: the pins of an earlier epoch, and those that add only zeros and whose remaining key comes first |
| `Specifiers.PlainWildcardBelowBoundIff` | scripts/check_dep_versions.py:277-290 | For a plain X: its pre-releases and dev releases, and no others |
| `Specifiers.CandidateBelowItsFloor` | scripts/check_dep_versions.py:277-290 | 2.7rc1 meets `==2.7.*` and lies below the floor read from it |
| `Specifiers.CheckServiceFile` | scripts/check_dep_versions.py:293-317 | Reports exactly the clauses whose bound dips below the package's floor, and none for a package exactly when its specifier is clean |
| `Specifiers.GuardKeepsFloor` | scripts/check_dep_versions.py:293-317 | A service specifier with a bound or a `>` at or above the floor, `==X.*` aside, allows no pin below any declared bound |
| `Specifiers.CleanBoundGuards` | scripts/check_dep_versions.py:293-317 | In a clean file every bound other than `==X.*` is such a clause |
| `Specifiers.OpenBelowIsClean` | scripts/check_dep_versions.py:293-317 | Every specifier made of `>`, `<=`, `<` and plain `!=` passes the floor check |
| `Specifiers.PastHolesIsClear` | scripts/check_dep_versions.py:189-190 | The first version from a given one on that no `!=` clause names is at or after it, and no `!=` clause names it |
| `Specifiers.OpenBelowKeepsFloorIff` | scripts/check_dep_versions.py:293-317 | Such a specifier allows no pin below the floor exactly when the lowest version its `>` and `!=` clauses leave is at or above the floor or some clause excludes that version |
| `Specifiers.CapAloneIsClean` | scripts/check_dep_versions.py:293-317 | `<9` passes against the floor 1 and allows 0 |
| `Specifiers.ComparePins` | scripts/check_dep_versions.py:352-368 | Missing and drifted requirements are exactly the unpinned and the violated ones, each with its clause |
| `Specifiers.PinSays` | scripts/check_dep_versions.py:339-347 | A package's pin is its first `==` or `===` clause; it has none when that one cannot be read, whatever follows |
| `Specifiers.CheckLock` | scripts/check_dep_versions.py:327-372 | The lock check passes exactly when something is declared and every requirement is pinned within its bounds |
| `Specifiers.CleanLockMeetsBounds` | scripts/check_dep_versions.py:339-368 | A clean lock pins every requirement at or above each bound it declares, `==X.*` aside |
| `RevisionGraph.CheckGraph` | scripts/check_alembic_revisions.py:186-212 | Orphans and heads are exactly the dangling pointers and the revisions nothing follows; passing is having no orphan and exactly one head |
| `RevisionGraph.WalkComesBack` | scripts/check_alembic_revisions.py:203-212 | A finite set in which one can always go on holds a cycle |
| `RevisionGraph.NoHeadMeansCycle` | scripts/check_alembic_revisions.py:208-212 | A non-empty graph without a head contains a cycle, orphan pointers or not |
| `RevisionGraph.HeadCoversIff` | scripts/check_alembic_revisions.py:198-212 | With one head every revision is its ancestor exactly when no cycle runs outside its ancestors |
| `RevisionGraph.AcyclicHeadCovers` | scripts/check_alembic_revisions.py:198-212 | In an acyclic graph with one head every revision is its ancestor |
| `RevisionGraph.UpgradeOrderIff` | scripts/check_alembic_revisions.py:186-197 | Without orphans an order that applies every revision after those it follows exists exactly when there is no cycle |
| `RevisionGraph.OrderEndsAtHead` | scripts/check_alembic_revisions.py:198-212 | Every such order ends with the one head |
| `RevisionGraph.DetachedCyclePasses` | scripts/check_alembic_revisions.py:186-212 | Graphs that pass although a cycle keeps revisions out of reach of the head |
| `ThresholdSweep.AppliedIsNested` | scripts/jev_eval.py:259-262 | What a higher threshold applies is filtered, in order, from what a lower one applies |
| `ThresholdSweep.CountsAre` | scripts/jev_eval.py:260-265 | The counts are the numbers of answers that name something with a confidence at or above the threshold, and of the wrong ones among them |
| `ThresholdSweep.Measure` | scripts/jev_eval.py:260-265 | A row's counts are the numbers of applied and of wrongly applied answers |
| `ThresholdSweep.Summarize` | scripts/jev_eval.py:253-289 | At the recommended threshold something is applied, at it and above nothing wrongly; every swept threshold from the floor up to it applies a wrong answer; with no recommendation none is safe |

## Left out

Canonical backfill

- SQL, SQLAlchemy, row-level security, time-zone pinning and drivers: stores are maps, and a step either works or raises.
- Model validation is the four field checks that depend on the row; identifiers are taken as canonical UUID text, and `BoundedRunsReachFullPass` asks that they hold no separator.
- Provenance, confidence score, payload columns and the counters for nulled products, recovered or assumed status and missing chain entries: written beside the modelled columns, read by nothing here.
- A report or log write that raises, and a state file that cannot be read.

Request ledger

- HTTP, payloads, scoring and the file lock that keeps runs apart.
- Money is exact, in billionths of a dollar; the script adds floating-point dollars.

Key publication

- The script is modelled on values, as an interleaved state machine of single file-system and store operations, because its processes share state without sharing memory.
- Symbolic-link, ownership and permission checks are steps that may raise; a `create_key` that raises is taken to mint nothing and a revocation that raises to revoke nothing.
- Database seeding and production guards.

Module context

- Names are visited in any order where the script sorts them by depth; the results hold for every order.
- Attribute links of inactive services between switches.

Guards and sweeps

- How import specifiers turn into candidate paths: the candidates of each import are given.
- Version and specifier text: reading it is a parameter. `Version.__hash__` uses the unpadded key and is not modelled.
- `Specifiers.MeetsBound`: excludes `==X.*`, for which `WildcardBelowBoundIff` gives the exact exception.
- `Specifiers.OpenBelowKeepsFloorIff`: does not cover `!=X.*`, which spares pins shorter than X that the order calls equal to excluded ones.
- Duplicate, sequential and grandfathered revision ids: one-branch checks.
- Precision, coverage and mean confidence of the sweep: rounded ratios of the modelled counts.
- Text scanners, launch orchestration, label generators, seeders and the front-end configuration: no property beyond one branch.
