# SweepX safety kernel: a model and its proofs

SweepX finds reclaimable disk space and, under explicit authority, removes it. This project models the
code that decides what may be destroyed, what is recorded about it, and what survives a budget or a crash,
and proves properties of that model with Dafny 4.11. `dafny verify dfyconfig.toml` checks all of it.

Each component follows the form of its source: objects that update their fields are classes whose methods
are proved against a specification function, loops are loops with invariants, and pure code is functions.
The main results are about those specifications.

**Audit store** (`AuditModel`, `AuditReplay`, `AuditJournal`, `AuditOperations`, `AuditInvariants`,
`AuditLifecycle`, `AuditConsumption`, `AuditStoreObject`, `AuditSessions`, `AuditSystem`, `AuditSnapshot`,
`AuditRollup`, with `Bytes`). Authorizations go
unused, claimed, consumed; executions carry global fence epochs; intents are reserved, classified, and
recorded. Seven operations change the tables and append hash-chained events in one transaction. Replay is a
second reading of the same machine. The results: no sequence of calls, refused ones included, makes the
journal and the tables disagree, so whole-store verification never rejects an honest store; two journals
with one head digest are identical or exhibit a hash collision; epochs are exactly 1..n; a recovery claim
fences out every earlier claim of its authorization for good; a consumed authorization never changes again;
two authorizations never have open intents on one source path.

**Preview compaction** (`PreviewModel`, `PreviewTrim`, `PreviewCompact`, `PreviewConservation`, with
`Sorting` and `Totals`). Rows are grouped by parent, the best 64 and the mandatory rows are kept, the others
are folded into an Others row, and the whole is trimmed to two caps by one sort, vacant slots and running
counters. Trimming is proved equal to exhaustive eviction with a full recount at every turn, for every size
estimate; folding one at a time is proved equal to building once; known quantities are conserved.

**File locks, names and quota of the private SQLite VFS** (`FileLocks`, `VfsNames`, `VfsQuota`). Any number
of handles, interleaved at single record-lock calls, each of which may fail.

**Duplicate detection** (`Duplicates`, `DuplicateStages`, `DuplicateClasses`, with `Buckets`). Length,
sample, full hash, final check, under read budgets and against an arbitrary reader, proved to be a fast form
of partitioning files by content.

**Generation store** (`GenerationDisk`, `Generations`, `GenerationSession`) and **state directory**
(`StateDirectory`). Retention, and data-before-pointer publication with every intermediate disk recorded, so
that a crash is any point of the trace; shared quota with headroom for records.

**Large files** (`LargeFiles`) and **Windows DACL scan** (`WindowsAcl`). An exact streaming top-K under a
memory budget; a byte parser proved against [MS-DTYP] sections 2.4.2, 2.4.4 and 2.4.5.

Four promises that read naturally turn out false of the code. Each has a concrete witness and, beside it, the
exact condition:

- The in-process `active` flag is set exactly while a claim is live. Dropping a consumed handle clears it under
  a newer claim (`AuditSessions.StaleDropClearsFlag`); a step keeps it truthful if and only if it is no such
  drop (`AuditSessions.FlagKeptIffNoStaleDrop`).
- Compaction loses no row. Rows filed under the literal parent id `__root__` vanish when there are root rows
  (`PreviewConservation.RootRowsDisplace`); nothing is lost if and only if the input lacks one of the two
  (`PreviewConservation.WholeIffNotDisplaced`).
- Recorded lock levels exclude each other at every moment. A handle inside `unlock` records a level it has let
  go of, and runs reach EXCLUSIVE beside SHARED and RESERVED beside RESERVED (`FileLocks.UnlockLags`,
  `FileLocks.DowngradeLags`); a level is backed by locks if and only if its handle does not lag
  (`FileLocks.LevelHeldIffNotLagging`), levels that do not lag exclude (`FileLocks.LevelsExclude`), and beside
  one that lags, and only then, another handle can come to clash (`FileLocks.ClashIffLags`).
- A consumed authorization has had each of its actions attempted. A run ends otherwise
  (`AuditConsumption.ConsumedUnattempted`); it holds if and only if each action had a recorded attempt when
  consuming was called (`AuditConsumption.WholeIffAllRecorded`), and what was left out then stays left out
  (`AuditConsumption.LeftOutForGood`).

## Model

| member | source | states |
|---|---|---|
| `AuditInvariants.RunsVerify` | crates/sweepx-audit/src/clean.rs:3628-3742 | After any sequence of the seven operations on a fresh store, refused ones included, replaying the journal from empty tables gives exactly the stored tables and both counters, and whole-store verification accepts |
| `AuditInvariants.RunsKeepHonesty` | crates/sweepx-audit/src/clean.rs:1905-2497 | The same from any store whose journal explains it: no run of calls makes the journal and the tables disagree |
| `AuditInvariants.ExecuteHonest` | crates/sweepx-audit/src/clean.rs:2204-2497 | One call, committed or refused, keeps the invariants, the detail rows and the agreement of journal and tables |
| `AuditInvariants.HonestVerifies` | crates/sweepx-audit/src/clean.rs:3724-3974 | A store that keeps the invariants and whose journal replays to its tables passes every comparison of `verify_database`, item and action rows included |
| `AuditInvariants.ChangeSound` | crates/sweepx-audit/src/clean.rs:1822-2497 | Whatever transaction commits keeps all table invariants, and replaying just its events from the old tables reaches exactly the new ones |
| `AuditInvariants.RegisterSound` | crates/sweepx-audit/src/clean.rs:1822-1865 | The same for a registration: detail rows stay those of the bindings, no more and no less |
| `AuditInvariants.ClaimSound` | crates/sweepx-audit/src/clean.rs:1905-2020 | The same for a first and for a recovery claim, where the two sides find the superseded execution by different routes |
| `AuditInvariants.ReserveSound` | crates/sweepx-audit/src/clean.rs:2064-2202 | The same for a reservation, created or not; the new intent shares its source path with no open intent of another authorization |
| `AuditInvariants.RecordOutcomeSound` | crates/sweepx-audit/src/clean.rs:2204-2250 | The same for an outcome: the operation deletes no recovery row and replay deletes one, and they agree because a reserved intent has none |
| `AuditInvariants.RecoveryOutcomeSound` | crates/sweepx-audit/src/clean.rs:2252-2312 | The same for an outcome recorded by recovery, which replaces a classification if there was one |
| `AuditInvariants.ClassifyAllSound` | crates/sweepx-audit/src/clean.rs:2350-2438 | The same for classifying any list of intents in one transaction with one event each |
| `AuditInvariants.ConsumeSound` | crates/sweepx-audit/src/clean.rs:2440-2497 | The same for consuming; the unchecked update of the execution row always hits an active row |
| `AuditReplay.ReplayedProjection.ReplayClaim` | crates/sweepx-audit/src/clean.rs:3570-3622 | Filling the projection in place accepts a claim exactly when the specification does, and then leaves exactly its tables |
| `AuditReplay.ReplayedProjection.ReplayEvent` | crates/sweepx-audit/src/clean.rs:3420-3568 | The same for each of the eight event kinds; a refused event may leave the projection half updated |
| `AuditReplay.ReplayedProjection.ReplayOutcome` | crates/sweepx-audit/src/clean.rs:3515-3526 | An outcome event needs its intent, marks it recorded, drops its recovery row and files the outcome |
| `AuditJournal.ReplayProjection` | crates/sweepx-audit/src/clean.rs:3628-3722 | The forward pass over sequence numbers and predecessor digests computes the recursive reading of the chain, and accepts only if the stored head is the last row's |
| `AuditJournal.RefusedPrefix` | crates/sweepx-audit/src/clean.rs:3628-3722 | A journal with a refused prefix is refused whatever follows it |
| `AuditJournal.AppendReplays` | crates/sweepx-audit/src/clean.rs:3332-3376 | The chain accepts the row an append writes behind its head, and that row replays its own event and nothing else |
| `AuditJournal.PreimageInjective` | crates/sweepx-audit/src/clean.rs:4287-4314 | Rows that hash the same bytes agree on all nine committed fields, an absent one reading as empty: the length-prefixed envelope is injective |
| `AuditJournal.EqualDigestRows` | crates/sweepx-audit/src/clean.rs:3628-3722 | Two accepted rows with one digest are the same row or exhibit a hash collision; an absent predecessor is never confused with an empty one |
| `AuditJournal.OneHistoryPerHead` | crates/sweepx-audit/src/clean.rs:3332-3376 | Two journals that verify against one head digest are identical, unless two of their rows are an explicit hash collision |
| `Bytes.PartsInjective` | crates/sweepx-audit/src/clean.rs:4311-4314 | Equally many length-prefixed fields that concatenate to the same bytes are the same fields |
| `Bytes.WordInjective` | crates/sweepx-audit/src/clean.rs:4297-4299 | The eight big-endian bytes of a 64-bit word determine it |
| `Bytes.HexInjective` | crates/sweepx-audit/src/clean.rs:4308-4308 | Lower-case hexadecimal of a digest determines the digest |
| `AuditLifecycle.EpochsExact` | crates/sweepx-audit/src/clean.rs:1905-2020 | In every reachable state an execution has fence epoch f if and only if 1 <= f <= the last allocated epoch, and no epoch is used twice |
| `AuditLifecycle.ClaimedIffOneActive` | crates/sweepx-audit/src/clean.rs:1905-2020 | In every reachable state an authorization is claimed if and only if it has an active execution; then it has one, its current one, and all its other executions carry lower fences |
| `AuditLifecycle.AttemptsOrdered` | crates/sweepx-audit/src/clean.rs:2086-2136 | In every reachable state: one attempt per authorization and action; outcome rows exactly under recorded intents, recovery rows exactly under classified ones with the same disposition; consumed means every attempt has its outcome; open intents of different authorizations never share a source path |
| `AuditLifecycle.ChangeLater` | crates/sweepx-audit/src/clean.rs:1822-2497 | Every committed transaction moves rows forward only: no binding changes, no fence falls, no outcome is replaced, a consumed authorization gains nothing |
| `AuditLifecycle.LaterTrans` | crates/sweepx-audit/src/clean.rs:1822-2497 | Being a later state in that sense composes over steps |
| `AuditLifecycle.RunsMoveForward` | crates/sweepx-audit/src/clean.rs:1822-2497 | Over any run the final state is a later one and the journal only grows at its end |
| `AuditLifecycle.ConsumedFrozen` | crates/sweepx-audit/src/clean.rs:2440-2497 | In every later state a consumed authorization's own row, its executions, intents and outcomes are exactly what they were |
| `AuditConsumption.ConsumedUnattempted` | crates/sweepx-audit/src/clean.rs:2440-2497 | Register, claim, consume: a run, on any database, that ends with a consumed authorization whose one authorized action was never attempted |
| `AuditConsumption.WholeIffAllRecorded` | crates/sweepx-audit/src/clean.rs:2440-2497 | A committed consume leaves every authorized action attempted if and only if, when it was called, each had an attempt with a recorded outcome |
| `AuditConsumption.ConsumeAllowedIff` | crates/sweepx-audit/src/clean.rs:2462-2470 | Under a live claim consuming is allowed if and only if no attempt is unresolved and the clock is readable: actions without an attempt do not count |
| `AuditConsumption.LeftOutForGood` | crates/sweepx-audit/src/clean.rs:2440-2497 | After any further run an action of a consumed authorization is attempted if and only if it was when the authorization was consumed |
| `AuditLifecycle.StaleFenceRefused` | crates/sweepx-audit/src/clean.rs:3302-3315 | An operation under a claim whose fence is not its authorization's current one changes nothing at all, whoever presents it |
| `AuditLifecycle.RecoveryRaisesFence` | crates/sweepx-audit/src/clean.rs:1905-2020 | A committed claim gives its authorization the next epoch, above every one allocated before |
| `AuditLifecycle.RecoveryFencesOut` | crates/sweepx-audit/src/clean.rs:1905-2020 | After a committed recovery claim and any further run, every claim or token of that authorization with an earlier fence, held or forged, leaves the store unchanged |
| `AuditLifecycle.FencesAllocated` | crates/sweepx-audit/src/clean.rs:1905-2020 | Every fence an execution holds was allocated earlier, so the previous bound covers each earlier claim |
| `AuditLifecycle.OutcomesFenced` | crates/sweepx-audit/src/clean.rs:2204-2312 | For every outcome event in the journal of any run: the tables the rows before it replay to hold its intent, and the authorization's fence just then is that stored intent's own, or for a recovery outcome a strictly later one; and the outcome is the one the store shows at the end |
| `AuditLifecycle.ChangeFenced` | crates/sweepx-audit/src/clean.rs:2204-2312 | One committed call records at most one outcome, alone, under that fence, and stores it |
| `AuditLifecycle.ConstraintsFireOnRepeatedIds` | crates/sweepx-audit/src/clean.rs:1822-2497 | On a reachable store an SQL uniqueness or foreign-key constraint fires only because a random identifier repeats, and a recovery claim never fails to find the execution it supersedes |
| `AuditStoreObject.AuditStore.constructor` | crates/sweepx-audit/src/clean.rs:3155-3165 | A fresh store is empty, with an empty journal and both counters at zero |
| `AuditStoreObject.AuditStore.RegisterAuthorization` | crates/sweepx-audit/src/clean.rs:1822-1865 | Statement by statement, the whole new store and the refusal are those of the specified transaction; a refusal leaves the store alone |
| `AuditStoreObject.AuditStore.Commit` | crates/sweepx-audit/src/clean.rs:3332-3376 | All events are appended in order and the new tables appear, or the first refused append rolls everything back |
| `AuditStoreObject.AuditStore.ClaimSessionFor` | crates/sweepx-audit/src/clean.rs:1905-2020 | The same for a claim: tables, event and refusal together |
| `AuditStoreObject.AuditStore.ClaimTransaction` | crates/sweepx-audit/src/clean.rs:1905-1993 | The branches of a claim in the code's order give the specified change or its first refusal |
| `AuditStoreObject.AuditStore.LookupReservation` | crates/sweepx-audit/src/clean.rs:2086-2136 | Finds nothing exactly when an intent may be created; a conflict names the earliest open intent of another authorization on the path, or this action's own intent under a different request |
| `AuditStoreObject.AuditStore.ReserveIntentOnce` | crates/sweepx-audit/src/clean.rs:2064-2202 | Store and refusal as specified; an existing or conflicting answer changes nothing and names an intent that explains it |
| `AuditStoreObject.AuditStore.CreateIntent` | crates/sweepx-audit/src/clean.rs:2137-2202 | The insert and its event commit together or not at all |
| `AuditStoreObject.AuditStore.RecordOutcomeFor` | crates/sweepx-audit/src/clean.rs:2204-2250 | Store and refusal of an outcome are those of the specified transaction |
| `AuditStoreObject.AuditStore.OutcomeTransaction` | crates/sweepx-audit/src/clean.rs:2213-2249 | The checks of an outcome, in order, and its two table updates |
| `AuditStoreObject.AuditStore.RecordRecoveryOutcomeFor` | crates/sweepx-audit/src/clean.rs:2252-2312 | Store and refusal of a recovery outcome are those of the specified transaction |
| `AuditStoreObject.AuditStore.ClassifyRecoveryFor` | crates/sweepx-audit/src/clean.rs:2350-2438 | Store and refusal are those of the specified transaction: every reserved intent of the authorization is observed, then all are classified or none is. The records returned are those of exactly the authorization's classified intents, by attempt, or in order of reservation if nothing awaited classification |
| `AuditStoreObject.AuditStore.ObserveAll` | crates/sweepx-audit/src/clean.rs:2363-2383 | All observations are made before anything is written; one that is an error or contradicts itself refuses them all |
| `AuditStoreObject.AuditStore.ClassifyTransaction` | crates/sweepx-audit/src/clean.rs:2390-2434 | The loop over candidates classifies the whole list, or reports the first refusal |
| `AuditStoreObject.AuditStore.ClassifyReserved` | crates/sweepx-audit/src/clean.rs:2384-2437 | Commits all classifications with their events or nothing, and returns every record the authorization then has, by attempt |
| `AuditStoreObject.VerifiedKeepsRecords` | crates/sweepx-audit/src/clean.rs:3744-3926 | Any store that verifies, whoever wrote it, has a recovery row exactly under each classified intent |
| `AuditStoreObject.ClassifyAllWrites` | crates/sweepx-audit/src/clean.rs:2393-2433 | Classifying leaves every other intent and record as it was |
| `AuditStoreObject.AuditStore.ConsumeExecution` | crates/sweepx-audit/src/clean.rs:2440-2497 | Store and refusal of consuming are those of the specified transaction; consuming twice under one fence adds no second event |
| `AuditStoreObject.FirstByOrdinal` | crates/sweepx-audit/src/clean.rs:2086-2112 | ORDER BY ordinal LIMIT 1: some selected intent exists exactly when one is returned, and it is the earliest |
| `AuditStoreObject.ByOrdinal` | crates/sweepx-audit/src/clean.rs:3274-3278 | ORDER BY ordinal: exactly the selected intents, each once, earliest first |
| `AuditStoreObject.RecoveryCandidates` | crates/sweepx-audit/src/clean.rs:3274-3300 | Lists exactly the authorization's reserved intents, and exactly its classified ones, each once and in the order they were reserved |
| `AuditSessions.RunsConsistent` | crates/sweepx-audit/src/clean.rs:253-280 | Over any interleaving of claims, consumes, drops and other processes' locks, a claim is live exactly while it holds the store lock, and a set flag means a claim holds it |
| `AuditSessions.OneLiveClaim` | crates/sweepx-audit/src/clean.rs:1867-1903 | At most one claim is ever live, a free lock is always enough for the next claim, and a set flag means some claim is live |
| `AuditSessions.StaleDropClearsFlag` | crates/sweepx-audit/src/clean.rs:253-280 | A concrete run in which the flag is clear under a live claim: claim, consume, claim again, drop the consumed handle |
| `AuditSessions.FlagKeptIffNoStaleDrop` | crates/sweepx-audit/src/clean.rs:253-280 | From a state where the flag is truthful, a step keeps it truthful if and only if it does not drop an inactive handle under another live claim |
| `AuditSessions.FlagTruthfulOverRuns` | crates/sweepx-audit/src/clean.rs:253-280 | Over any run without such drops the flag is set exactly while a claim is live |
| `AuditSystem.LiveClaimIsCurrent` | crates/sweepx-audit/src/clean.rs:1995-2020 | Store and sessions together, other processes included: in every reachable state a live claim holds the store lock, is the current, active execution of its authorization under its own binding and has the highest fence of the store; a claim that is not live changes nothing |
| `AuditSystem.RunsSound` | crates/sweepx-audit/src/clean.rs:1905-2020 | Over any sequence of registrations, claims, operations under claims, drops and foreign work, the store stays honest and every live claim current |
| `AuditSystem.ActKeeps` | crates/sweepx-audit/src/clean.rs:2639-2660 | Operations under a claim, live or not, keep that, and consuming gives the claim up |
| `AuditSessions.SessionCoordinator.ClaimSession` | crates/sweepx-audit/src/clean.rs:1867-1903 | The flag, then the lock, then the transaction decide a claim; a failed transaction gives the lock back |
| `AuditSessions.SessionCoordinator.ReleaseLiveClaim` | crates/sweepx-audit/src/clean.rs:267-280 | Gives up the lock only if this claim holds it, and clears both flags whether or not it does |
| `AuditSessions.SessionCoordinator.ConsumeClaim` | crates/sweepx-audit/src/clean.rs:2440-2497 | Consuming releases the claim exactly when it is the live one |
| `AuditSessions.SessionCoordinator.DropClaim` | crates/sweepx-audit/src/clean.rs:253-265 | Dropping a handle releases it even after it was consumed |
| `AuditSnapshot.Snapshot` | crates/sweepx-audit/src/clean.rs:4121-4188 | The first two loops: in every state meeting the store invariants they succeed, with exactly one row per authorization and authorized action, each saying what its attempt says |
| `AuditRollup.ProjectionSnapshot` | crates/sweepx-audit/src/clean.rs:2547-2571 | Of the store any run leaves behind the snapshot succeeds and shows exactly its tables: every row once, in order, and each authorization, item and batch under the state of its most severe row, asking for reconciliation exactly when a row does |
| `AuditRollup.SnapshotFromReplay` | crates/sweepx-audit/src/clean.rs:4121-4256 | The same for any tables meeting the invariants |
| `AuditRollup.RollUp` | crates/sweepx-audit/src/clean.rs:4190-4255 | The nested loops, whatever the rows: batches, items, authorizations and actions in order, exactly those there are |
| `AuditRollup.RollUpBatch` | crates/sweepx-audit/src/clean.rs:4191-4252 | Or-ing the flags of a batch's items gives the state and the reconciliation mark of the worst row of the batch |
| `AuditRollup.RollUpItem` | crates/sweepx-audit/src/clean.rs:4196-4241 | Or-ing the flags of an item's authorizations gives those of the worst row of the item, and the flags of the item as a whole |
| `AuditRollup.RollUpAuthorization` | crates/sweepx-audit/src/clean.rs:4201-4224 | Three flags over an authorization's rows give those of its worst row; its rows are listed by action |
| `AuditRollup.FlagsShow` | crates/sweepx-audit/src/clean.rs:3976-3990 | The precedence of the flags is that of severity, and a group asks for reconciliation exactly when one of its rows does |
| `AuditRollup.PlacesShowRows` | crates/sweepx-audit/src/clean.rs:4190-4255 | Every place in the nested lists shows the row of its batch, item, authorization and action |
| `AuditRollup.RowsHavePlaces` | crates/sweepx-audit/src/clean.rs:4190-4255 | Every row has a place in them |
| `AuditRollup.PlacesDiffer` | crates/sweepx-audit/src/clean.rs:4190-4255 | And only one |
| `AuditSnapshot.ListActions` | crates/sweepx-audit/src/clean.rs:4127-4164 | The first loop lists every authorized action of every authorization once, unattempted |
| `AuditSnapshot.ListBinding` | crates/sweepx-audit/src/clean.rs:4128-4163 | One authorization's actions are added without disturbing other rows |
| `AuditSnapshot.PlaceAttempts` | crates/sweepx-audit/src/clean.rs:4166-4188 | Every attempt finds its action's row, whatever order attempts are visited in |
| `AuditSnapshot.ConsumedNeverWaits` | crates/sweepx-audit/src/clean.rs:4001-4119 | A consumed authorization has no pending row; its rows shown as authorized are those whose action has no attempt |
| `AuditSnapshot.DispositionIsClassification` | crates/sweepx-audit/src/clean.rs:4001-4119 | The disposition shown is the one the intent was classified with, and a report is shown exactly for recorded intents |
| `PreviewTrim.TrimToBudgets` | crates/sweepx-cache/src/lib.rs:1150-1243 | One sort, vacant slots and running counters give exactly the outcome of repeatedly searching all parents for the lowest-ranked non-mandatory row, merging it and recounting everything, for any row size estimate and caps |
| `PreviewTrim.EvictUntilFits` | crates/sweepx-cache/src/lib.rs:1191-1228 | The loop stops at the highest cut-off of the ranking at which the caps hold, or at none left; every eviction before it was needed |
| `PreviewTrim.EvictOne` | crates/sweepx-cache/src/lib.rs:1208-1227 | Taking the row out of its slot, merging it and adjusting both counters is one turn of exhaustive search: the lowest-ranked row of all parents is evicted, and the counters are what a recount finds, never having gone below zero |
| `PreviewTrim.TrimStep` | crates/sweepx-cache/src/lib.rs:1204-1228 | At each turn the ranked slot is still occupied, both subtractions are safe, and the counters equal a full recount afterwards |
| `PreviewTrim.CountersTrack` | crates/sweepx-cache/src/lib.rs:1222-1227 | The change of both counters is the change of a recount, with or without a summary already there |
| `PreviewTrim.LowestIsWorst` | crates/sweepx-cache/src/lib.rs:3176-3309 | The lowest-ranked occupied slot is the row exhaustive search would pick, and vacating it is that eviction |
| `PreviewTrim.RankedRanks` | crates/sweepx-cache/src/lib.rs:1158-1180 | The one sort lists exactly the rows that may go, each once, best first over all parents |
| `PreviewTrim.WorstExists` | crates/sweepx-cache/src/lib.rs:3176-3309 | Exhaustive search finds a row to evict if and only if a non-mandatory row is left |
| `PreviewTrim.ExhaustEnds` | crates/sweepx-cache/src/lib.rs:3176-3309 | Exhaustive eviction ends where the ranking's cut-off says it does |
| `PreviewTrim.TrimOutcome` | crates/sweepx-cache/src/lib.rs:1150-1243 | Afterwards the caps hold or nothing more may go, no eviction happened once they held, and the totals equal a recount |
| `PreviewTrim.MandatorySurvives` | crates/sweepx-cache/src/lib.rs:101-110 | Every retained mandatory row is still there after any trimming |
| `PreviewTrim.EvictedRankBelowKept` | crates/sweepx-cache/src/lib.rs:1119-1243 | No evicted row, of any parent, ranks before a kept row, of any parent, that could have gone |
| `PreviewTrim.OthersHoldEverything` | crates/sweepx-cache/src/lib.rs:1204-1228 | A parent's summary ends as one summary built from the rows compaction left out and then the evicted rows, in the order they went |
| `PreviewTrim.RecomputeTotals` | crates/sweepx-cache/src/lib.rs:1131-1148 | The nested recount is the sum over parents of rows and summaries |
| `PreviewModel.FoldingIsBuilding` | crates/sweepx-cache/src/lib.rs:1086-1117 | Folding one more row into an Others row equals building Others once from all the rows so far: sums, unknowns, lower bounds, overflow, reasons and their order, completeness |
| `PreviewModel.SumFolds` | crates/sweepx-cache/src/lib.rs:1269-1353 | Summing the sum so far with the next value is summing everything so far and the next, including unknown and overflow |
| `PreviewModel.SumValues` | crates/sweepx-cache/src/lib.rs:1269-1353 | The early-returning loops compute the fold in which the first missing value or first overflow settles the result and the first lower bound's reason is kept |
| `PreviewModel.UnionIncompleteReasons` | crates/sweepx-cache/src/lib.rs:1376-1393 | Reasons are collected once each, in first-seen order, rows' own before their aggregates' |
| `PreviewModel.RowsOrdered` | crates/sweepx-cache/src/lib.rs:1119-1129 | The row comparison is a strict weak order, so sorting by it is well defined |
| `PreviewModel.CompareRowsTransitive` | crates/sweepx-cache/src/lib.rs:1119-1129 | Comparison by measured size, name and id is transitive, ties included |
| `PreviewCompact.CompactPreview` | crates/sweepx-cache/src/lib.rs:1000-1036 | Grouping, compacting each parent, recounting and trimming together give the exhaustively trimmed compaction of the input |
| `PreviewCompact.GroupSummaries` | crates/sweepx-cache/src/lib.rs:1004-1019 | One pass files children under parents, and root rows last under the fixed key |
| `PreviewCompact.GroupedExact` | crates/sweepx-cache/src/lib.rs:1007-1019 | A key holds exactly its children in input order; the root key holds the root rows instead when there are any |
| `PreviewCompact.ByParentExact` | crates/sweepx-cache/src/lib.rs:1007-1015 | A parent is listed exactly when it has children, with all of them in input order |
| `PreviewCompact.CompactGroups` | crates/sweepx-cache/src/lib.rs:1021-1025 | Every group is compacted, in key order |
| `PreviewCompact.CompactParent` | crates/sweepx-cache/src/lib.rs:1038-1084 | Classifying, ranking, promoting and summarising one parent is the specified compaction |
| `PreviewCompact.Classify` | crates/sweepx-cache/src/lib.rs:1039-1059 | The first loop splits the rows into mandatory, eligible and remainder, each in input order |
| `PreviewCompact.PromoteBest` | crates/sweepx-cache/src/lib.rs:1061-1070 | The first 64 ranked rows are kept and marked, the others join the remainder |
| `PreviewCompact.RowsPartition` | crates/sweepx-cache/src/lib.rs:1043-1059 | Every row is in exactly one of the three parts: whatever rows weigh, the parts weigh what the whole does |
| `PreviewCompact.PromotedAreBest` | crates/sweepx-cache/src/lib.rs:1061-1070 | No row left out ranks before one that was promoted, and rows are left out only when 64 were promoted |
| `PreviewConservation.PreviewConserves` | crates/sweepx-cache/src/lib.rs:1000-1243 | For a measure known everywhere and summing without overflow, retained rows plus summaries of the finished preview carry exactly what came in, less the rows displaced at the root key, whatever the caps |
| `PreviewConservation.WholeIffNotDisplaced` | crates/sweepx-cache/src/lib.rs:1017-1019 | Where every row counts for something, nothing is lost if and only if the input does not have both a root row and a row whose parent id is `__root__` |
| `PreviewConservation.RootRowsDisplace` | crates/sweepx-cache/src/lib.rs:1017-1019 | A concrete two-row input of which the preview counts one entry |
| `PreviewConservation.DisplacedIff` | crates/sweepx-cache/src/lib.rs:1017-1019 | Both halves of that condition in terms of the input rows |
| `PreviewConservation.CompactAllConserves` | crates/sweepx-cache/src/lib.rs:1000-1036 | Conservation before trimming, less the displaced rows |
| `PreviewConservation.ParentConserves` | crates/sweepx-cache/src/lib.rs:1038-1084 | What one parent's rows amount to is what its kept rows and summary amount to |
| `PreviewConservation.EvictConserves` | crates/sweepx-cache/src/lib.rs:1204-1228 | Merging an evicted row into its parent's summary leaves the grand total as it was |
| `PreviewConservation.ExhaustConserves` | crates/sweepx-cache/src/lib.rs:1150-1243 | So does trimming to the end |
| `PreviewConservation.KnownSum` | crates/sweepx-cache/src/lib.rs:1269-1353 | Known values that do not overflow sum to a known value, their arithmetic sum |
| `FileLocks.RunsAreSafe` | crates/sweepx-audit/src/retained_vfs.rs:733-833 | For any number of handles and any interleaving and failure of single record-lock calls: held ranges stay compatible, a recorded level never claims more than is held outside the tail of unlock, and no one else holds the shared range against a recorded EXCLUSIVE |
| `FileLocks.StepKeepsSafe` | crates/sweepx-audit/src/retained_vfs.rs:733-833 | One record-lock call or level update of any handle keeps all of that |
| `FileLocks.AdvanceOk` | crates/sweepx-audit/src/retained_vfs.rs:770-833 | At every stage of lock and unlock, and whichever way the call is answered, what is recorded is held |
| `FileLocks.LockingAdvances` | crates/sweepx-audit/src/retained_vfs.rs:788-808 | Each stage of a lock call moves towards its level without losing one, and gives up only on a refusal |
| `FileLocks.LevelsExclude` | crates/sweepx-audit/src/retained_vfs.rs:733-833 | In every reachable state, for two handles neither of which lags: EXCLUSIVE excludes every other handle at SHARED or above, and at most one handle is at RESERVED or above; a handle inside unlock counts unless it lags |
| `FileLocks.LevelHeldIffNotLagging` | crates/sweepx-audit/src/retained_vfs.rs:819-829 | In every reachable state a recorded level is backed by the locks it stands for if and only if the handle does not lag, that is, has not just let go of locks its recorded level still claims |
| `FileLocks.ClashIffLags` | crates/sweepx-audit/src/retained_vfs.rs:770-833 | Another handle, only ever locking, can come to break the exclusion beside a given one if and only if that one lags |
| `FileLocks.HoldersOnlyShrink` | crates/sweepx-audit/src/retained_vfs.rs:770-811 | While a handle holds PENDING no step makes another handle a holder of the shared range |
| `FileLocks.HoldersShrinkOverRuns` | crates/sweepx-audit/src/retained_vfs.rs:770-811 | Over any stretch of a run in which one handle keeps PENDING, the set of other shared-range holders only shrinks |
| `FileLocks.UnlockUpwardsAddsHolder` | crates/sweepx-audit/src/retained_vfs.rs:813-833 | Why callers must unlock downwards only: unlocking to SHARED from nothing would add a holder under PENDING |
| `FileLocks.UnlockLags` | crates/sweepx-audit/src/retained_vfs.rs:819-829 | A run of two freshly opened handles that ends with one recorded EXCLUSIVE and the other recorded SHARED: the first has let go and not yet written it down |
| `FileLocks.DowngradeLags` | crates/sweepx-audit/src/retained_vfs.rs:822-829 | A run of two freshly opened handles that ends with both recorded RESERVED, the first on its way down to SHARED |
| `FileLocks.LockReaches` | crates/sweepx-audit/src/retained_vfs.rs:770-811 | A lock call that succeeds has reached its level, one that fails has lost none, and it fails only if a record-lock call was refused |
| `FileLocks.UnlockReaches` | crates/sweepx-audit/src/retained_vfs.rs:813-833 | An unlock that succeeds holds exactly what its level needs; one that fails leaves the recorded level as it was |
| `FileLocks.DatabaseFile.AcquireShared` | crates/sweepx-audit/src/retained_vfs.rs:789-796 | SHARED is taken under PENDING, which is let go whatever became of SHARED: the same end state as the stepwise protocol |
| `FileLocks.DatabaseFile.AcquireExclusive` | crates/sweepx-audit/src/retained_vfs.rs:801-806 | PENDING is recorded on its own before the shared range is asked for |
| `FileLocks.DatabaseFile.Lock` | crates/sweepx-audit/src/retained_vfs.rs:770-811 | The nested code of `lock` is the stepwise protocol that the interleaving results are about, for every sequence of answers |
| `FileLocks.DatabaseFile.Unlock` | crates/sweepx-audit/src/retained_vfs.rs:813-833 | The same for `unlock`, including partial failure |
| `VfsNames.ParseIffPrinted` | crates/sweepx-audit/src/retained_vfs.rs:116-148 | The parser accepts a text as a key and a name if and only if it is the printed token of a nonzero 64-bit key: no aliases, leading zeros, overflow or other names |
| `VfsNames.PrintParses` | crates/sweepx-audit/src/retained_vfs.rs:384-384 | Every printed token parses back to its key and name |
| `VfsNames.ParsedIsPrinted` | crates/sweepx-audit/src/retained_vfs.rs:116-148 | Whatever parses was printed |
| `VfsNames.PrintedFits` | crates/sweepx-audit/src/retained_vfs.rs:116-148 | Every token is shorter than the scanned window and holds no NUL |
| `VfsNames.Request` | crates/sweepx-audit/src/retained_vfs.rs:116-148 | On NUL-terminated memory the bounded scan finds a key and name if and only if the string before the first NUL is that token, however long the string is |
| `VfsQuota.WithinIsFit` | crates/sweepx-audit/src/retained_vfs.rs:225-247 | Staying within every limit is what the running total and the per-file checks decide |
| `VfsQuota.Namespace.Growth` | crates/sweepx-audit/src/retained_vfs.rs:225-247 | OK only if every file and the sum would stay within limits, FULL only if not, an I/O error only if a length could not be read |
| `VfsQuota.Namespace.Write` | crates/sweepx-audit/src/retained_vfs.rs:639-676 | Whatever pieces the file system takes, the file grows to exactly what was written, success means exactly that everything was, any change stays within limits, FULL means over quota or a full disk, and an I/O error means an unreadable length or a write call that failed or took nothing |
| `VfsQuota.Namespace.WritePieces` | crates/sweepx-audit/src/retained_vfs.rs:660-674 | The loop over pieces, with a full disk told apart from other failures |
| `VfsQuota.Namespace.Truncate` | crates/sweepx-audit/src/retained_vfs.rs:678-694 | The length becomes the requested one or stays; any change stays within limits |
| `VfsQuota.Namespace.Serve` | crates/sweepx-audit/src/retained_vfs.rs:225-247 | No sequence of writes and truncates, with any failures, takes the namespace out of its limits |
| `DuplicateClasses.FindDuplicates` | crates/sweepx-analysis/src/duplicates.rs:194-429 | Any reader: every group is sound and delivered <= charged <= the budget. A complete report covers every qualifying entry, and against faithful reads without a full-hash collision its groups are exactly the content classes of size two or more |
| `DuplicateClasses.StagesFindContentClasses` | crates/sweepx-analysis/src/duplicates.rs:262-429 | Sampling, hashing and grouping partition the files by content, less singletons: whole classes, every equal pair, no file twice, however the sample hash behaves |
| `DuplicateClasses.StagedIsNaive` | crates/sweepx-analysis/src/duplicates.rs:262-429 | Staging reports the same groups in the same order as hashing every file of every size in full |
| `DuplicateClasses.SampledSameLarge` | crates/sweepx-analysis/src/duplicates.rs:291-367 | Where equal full hashes imply equal samples, dropping files alone in their sample loses no full-hash bucket of two or more |
| `DuplicateClasses.SurvivorsSameLarge` | crates/sweepx-analysis/src/duplicates.rs:291-367 | The same for one full hash |
| `DuplicateClasses.NaivePartitions` | crates/sweepx-analysis/src/duplicates.rs:262-429 | The naive partition is the content partition: every cell is a whole class, every equal pair is reported |
| `DuplicateClasses.NaiveCells` | crates/sweepx-analysis/src/duplicates.rs:369-409 | A reported group holds exactly the files of its length and digest |
| `DuplicateClasses.NaiveOrdered` | crates/sweepx-analysis/src/duplicates.rs:280-409 | Groups are in strict order of length, then digest |
| `DuplicateClasses.NaiveFinds` | crates/sweepx-analysis/src/duplicates.rs:369-409 | Two files of one length and digest are reported |
| `Duplicates.CollectExact` | crates/sweepx-analysis/src/duplicates.rs:194-248 | After any stream the retained files are distinct admissible objects within both bounds, and without a recorded gap every qualifying entry is represented by one of its object and length |
| `Duplicates.ObserveKeeps` | crates/sweepx-analysis/src/duplicates.rs:194-248 | One entry keeps that, never drops a retained file and never forgets a gap |
| `Duplicates.DuplicateCollector.Observe` | crates/sweepx-analysis/src/duplicates.rs:194-248 | The object index and running cost give the same decision as searching and recounting |
| `Duplicates.DuplicateCollector.Retain` | crates/sweepx-analysis/src/duplicates.rs:220-247 | The same for a file of known object and length: alias, refusal or retention |
| `DuplicateStages.Analysis.Read` | crates/sweepx-analysis/src/duplicates.rs:441-516 | A read is charged before it is attempted and stays in the budget; it succeeds only if exactly the requested range arrived uninterrupted under one observation, unchanged from the previous one and matching the scanned entry |
| `DuplicateStages.Analysis.Consume` | crates/sweepx-analysis/src/duplicates.rs:478-497 | Chunks past an interruption or past the requested length are neither delivered nor hashed |
| `DuplicateStages.Analysis.SampleRange` | crates/sweepx-analysis/src/duplicates.rs:305-330 | An accepted sampled range is that part of the file; a refusal is recorded as a gap |
| `DuplicateStages.Analysis.SampleSuffix` | crates/sweepx-analysis/src/duplicates.rs:303-308 | The second range is read exactly when it is not an empty range past the start, and then completes the sampled pieces |
| `DuplicateStages.Analysis.SampleFile` | crates/sweepx-analysis/src/duplicates.rs:299-332 | A sample digest covers a prefix and, unless it is empty past the start, a suffix of the file |
| `DuplicateStages.Analysis.SampleStage` | crates/sweepx-analysis/src/duplicates.rs:298-339 | Without gaps the samples are exactly the files of one size bucketed by sample digest |
| `DuplicateStages.Analysis.HashFile` | crates/sweepx-analysis/src/duplicates.rs:342-366 | A full digest can be traced to one accepted read of the whole file under the recorded observation |
| `DuplicateStages.Analysis.HashInto` | crates/sweepx-analysis/src/duplicates.rs:342-366 | A file joins the bucket of its digest, or a gap is recorded |
| `DuplicateStages.Analysis.HashBucket` | crates/sweepx-analysis/src/duplicates.rs:341-367 | The same for every file of one sample bucket |
| `DuplicateStages.Analysis.FullStage` | crates/sweepx-analysis/src/duplicates.rs:340-368 | Without gaps the full hashes are exactly the files that share a sample, bucketed by digest |
| `DuplicateStages.Analysis.RecheckBucket` | crates/sweepx-analysis/src/duplicates.rs:370-392 | A file stays in a candidate group only if a metadata-only check made after every full hash of its size found its observation unchanged; a group keeps every file only without gaps |
| `DuplicateStages.GroupSound` | crates/sweepx-analysis/src/duplicates.rs:369-409 | Rechecked members of a hashed bucket make a sound group: there is an attempt before which all were fully read to one digest and from which on each was found unchanged |
| `DuplicateStages.Analysis.GroupStage` | crates/sweepx-analysis/src/duplicates.rs:369-409 | Every reported group is sound; without gaps they are exactly the full-hash buckets of two or more |
| `DuplicateStages.Analysis.AnalyzeSize` | crates/sweepx-analysis/src/duplicates.rs:291-410 | The stages of one size together; a stop keeps the groups already found |
| `DuplicateStages.Analysis.GroupSizes` | crates/sweepx-analysis/src/duplicates.rs:280-285 | Files are bucketed by length, in order of length |
| `DuplicateStages.Analysis.ContentStages` | crates/sweepx-analysis/src/duplicates.rs:286-411 | Every size with at least two files, until a stage stops |
| `DuplicateStages.Analysis.Analyze` | crates/sweepx-analysis/src/duplicates.rs:262-429 | Complete exactly when no gap remains; groups are sound in any case |
| `Buckets.GroupedExact` | crates/sweepx-analysis/src/duplicates.rs:280-285 | Pushing items one by one into an ordered map of lists leaves each key with exactly its items, in order |
| `Buckets.LargeExact` | crates/sweepx-analysis/src/duplicates.rs:340-340 | Keeping the buckets of two or more changes no other key |
| `Buckets.SameLookups` | crates/sweepx-analysis/src/duplicates.rs:280-285 | Ordered maps of lists are equal when every key looks up the same |
| `GenerationSession.GenerationWriteSession.WriteGeneration` | crates/sweepx-cache/src/generation_state.rs:140-147 | Stopped at any point of reserving, pruning, publishing data and publishing the pointer, the store loads what it loaded before or the complete new generation; a finished write loads back what was written and the disk is within its limits |
| `GenerationSession.GenerationWriteSession.Publish` | crates/sweepx-cache/src/lib.rs:818-842 | Through temporary file, partial contents and rename, loading sees the old outcome or the new generation, never anything between |
| `GenerationSession.GenerationWriteSession.WriteTemp` | crates/sweepx-cache/src/lib.rs:818-842 | Creating or rewriting the temporary file never changes what loads |
| `GenerationSession.GenerationWriteSession.Rename` | crates/sweepx-cache/src/lib.rs:818-842 | The rename is the one step that can change what loads, and then to the new generation |
| `GenerationSession.GenerationWriteSession.Prune` | crates/sweepx-cache/src/generation_state.rs:319-415 | On success exactly the shortest sufficient run of the oldest evictable files is gone and there is room; if no run suffices nothing is gone; a failure part way leaves a shorter run removed; loading never changes |
| `GenerationSession.GenerationWriteSession.Evict` | crates/sweepx-cache/src/generation_state.rs:384-395 | The planned files go one by one, and loading is the same after each |
| `GenerationSession.GenerationWriteSession.Reserve` | crates/sweepx-cache/src/generation_state.rs:257-273 | Succeeds only for a new name and with room for old and new side by side |
| `GenerationSession.GenerationWriteSession.Refresh` | crates/sweepx-cache/src/generation_state.rs:170-204 | The inventory is that of the disk, and never more entries than the limit |
| `GenerationSession.Plan` | crates/sweepx-cache/src/generation_state.rs:325-382 | Running totals never go below zero and find the shortest sufficient run, or that there is none |
| `GenerationSession.PublishedFits` | crates/sweepx-cache/src/lib.rs:818-842 | Data and pointer together fit the room that was reserved for them |
| `Generations.RetentionKeepsLoad` | crates/sweepx-cache/src/generation_state.rs:319-415 | However many of the planned files are already gone, the store loads what it loaded before |
| `Generations.RetentionTotals` | crates/sweepx-cache/src/generation_state.rs:319-415 | Bytes, generations and entries fall by exactly those of the removed files |
| `Generations.RetentionSpares` | crates/sweepx-cache/src/generation_state.rs:347-357 | Unknown files, the current generation and, while the pointer is unreadable, every file remain |
| `Generations.RemovedAreOldest` | crates/sweepx-cache/src/generation_state.rs:347-375 | Nothing kept that could have gone is older, by access time and then name, than anything removed |
| `Generations.EligibleOnce` | crates/sweepx-cache/src/generation_state.rs:347-362 | No file is planned for removal twice |
| `Generations.RemoveAllCounts` | crates/sweepx-cache/src/generation_state.rs:319-415 | Removing distinct present files takes exactly their number and bytes away |
| `Generations.TempInvisible` | crates/sweepx-cache/src/lib.rs:442-512 | A temporary file, however far written, is invisible to loading |
| `Generations.DataPublishedLoads` | crates/sweepx-cache/src/lib.rs:818-842 | Once the data is in place the store loads the old outcome, or the new generation where the old pointer already named it |
| `Generations.PointerPublishedLoads` | crates/sweepx-cache/src/lib.rs:818-842 | Once the pointer is in place too the new generation loads, checksum and all |
| `GenerationDisk.EligibleFacts` | crates/sweepx-cache/src/generation_state.rs:347-362 | Planned files are managed, evictable, in order and part of the inventory's totals |
| `LargeFiles.LargeFileCollector.Finish` | crates/sweepx-analysis/src/large_files.rs:161-187 | A report marked complete lists exactly the K largest qualifying files of the whole stream, larger first and earlier first among equals; the limit flag is set exactly when more than K qualified |
| `LargeFiles.LargeFileCollector.Observe` | crates/sweepx-analysis/src/large_files.rs:106-157 | For every stream the retained cost is the sum of the kept costs and within budget, and until memory refuses something the ranking is exact |
| `LargeFiles.LargeFileCollector.Admit` | crates/sweepx-analysis/src/large_files.rs:115-157 | The same for one qualifying file |
| `LargeFiles.LargeFileCollector.Place` | crates/sweepx-analysis/src/large_files.rs:120-156 | A file that cannot rank is dropped without a gap; otherwise the ranking is the bounded insertion unless memory interfered |
| `LargeFiles.LargeFileCollector.MakeRoom` | crates/sweepx-analysis/src/large_files.rs:139-154 | Only the smallest files go, no more than needed, and memory pressure is always recorded |
| `LargeFiles.TopIsLargest` | crates/sweepx-analysis/src/large_files.rs:106-187 | What the ranking means: as many as fit, in order, and nothing left out ranks before anything kept |
| `LargeFiles.TopGrows` | crates/sweepx-analysis/src/large_files.rs:106-157 | One more file against the kept ranking is one more file against all of them |
| `LargeFiles.InsertTake` | crates/sweepx-analysis/src/large_files.rs:120-156 | Truncating before or after inserting gives the same bounded ranking |
| `LargeFiles.Insertion` | crates/sweepx-analysis/src/large_files.rs:139-156 | Inserting after eviction keeps order and cost, and is exact when nothing was evicted for memory |
| `WindowsAcl.AcceptsExactlyPrivateAcls` | crates/sweepx-cache/src/windows_state_policy.rs:12-44 | A byte string is accepted if and only if the trusted names are SIDs and it is the encoding, per [MS-DTYP] 2.4.2, 2.4.4 and 2.4.5, of an ACL of basic allow and deny ACEs whose every grant is trusted |
| `WindowsAcl.EncodeThenScan` | crates/sweepx-cache/src/windows_state_policy.rs:12-44 | Encoding any such ACL, with slack inside and bytes after the declared size, and scanning it answers exactly whether every grant is trusted |
| `WindowsAcl.DecodeAccepted` | crates/sweepx-cache/src/windows_state_policy.rs:12-44 | Whatever is accepted decodes, byte for byte |
| `WindowsAcl.DecodeScanned` | crates/sweepx-cache/src/windows_state_policy.rs:26-43 | The same for a run of ACEs |
| `WindowsAcl.ScanEncoded` | crates/sweepx-cache/src/windows_state_policy.rs:26-43 | The scan of encoded ACEs succeeds exactly when every grant is trusted |
| `WindowsAcl.EncodedFirst` | crates/sweepx-cache/src/windows_state_policy.rs:26-43 | The first ACE's declared length is its encoded length, and it is refused only as an untrusted grant |
| `WindowsAcl.FirstAce` | crates/sweepx-cache/src/windows_state_policy.rs:26-43 | An accepted ACE lies within the remaining bytes |
| `WindowsAcl.IsPrivateAcl` | crates/sweepx-cache/src/windows_state_policy.rs:12-44 | The offset loop computes the recursive scan |
| `WindowsAcl.EncodedSidValid` | crates/sweepx-cache/src/windows_state_policy.rs:70-72 | Every encoded SID passes the length check |
| `WindowsAcl.DecodeSid` | crates/sweepx-cache/src/windows_state_policy.rs:70-72 | Every byte string that passes is the encoding of a SID |
| `WindowsAcl.TerminatedUtf16` | crates/sweepx-cache/src/windows_state_policy.rs:58-68 | Exactly the unit sequences without NUL and of at most 32767 units are accepted, unchanged and terminated, looking at no more than one unit past the limit |
| `StateDirectory.Walk` | crates/sweepx-cache/src/state_directory.rs:197-244 | Succeeds if and only if the tree has the admitted shape and fits the entry cap, and then has added exactly the recursive sum of its files and names |
| `StateDirectory.WalkEntry` | crates/sweepx-cache/src/state_directory.rs:197-244 | The same for one entry, which is charged before anything about it is known |
| `StateDirectory.WalksOne` | crates/sweepx-cache/src/state_directory.rs:197-244 | Admission and usage of a directory grow entry by entry |
| `StateDirectory.Child` | crates/sweepx-cache/src/state_directory.rs:255-287 | Known child directories only get shallower, so the walk ends |
| `StateDirectory.StateWriteSession.Reserve` | crates/sweepx-cache/src/state_directory.rs:163-189 | Admitted if and only if the directory walks and the reservation fits both caps on top of it |
| `StateDirectory.StateWriteSession.ReserveDisposable` | crates/sweepx-cache/src/state_directory.rs:124-132 | Admitted if and only if it fits with the 32 MiB and 8 entries of record headroom still free |
| `StateDirectory.StateWriteSession.Session` | crates/sweepx-cache/src/state_directory.rs:118-189 | A write takes place exactly when its reservation fits what a fresh walk finds, and otherwise the directory stays as it was |
| `StateDirectory.RunSessions` | crates/sweepx-cache/src/state_directory.rs:118-189 | A sequence of sessions through those two reservations is a chain of such steps, each starting from the directory the previous one left |
| `StateDirectory.CapsHold` | crates/sweepx-cache/src/state_directory.rs:118-189 | Over any sequence of sessions whose writers add no more than they reserved, the caps hold after each, and an admitted disposable write leaves the record headroom free |
| `StateDirectory.RecordsFit` | crates/sweepx-cache/src/state_directory.rs:118-133 | A record write within the headroom, following an admitted disposable write, is admitted |

## Left out

- LargeFiles.LargeFileCollector.Observe: takes streams of fewer than 2^128 ordinary files, so that saturating counters never saturate; beyond that equal files would share a map key.
- GenerationSession.GenerationWriteSession.WriteGeneration: takes the disk as changed by this session alone; another process ignoring the cooperative lock between quota check and write is not modelled.
- DuplicateClasses.FindDuplicates: the exact-classes half assumes that accepted reads return the file's bytes and that no two of the files collide under the full hash; the soundness half assumes nothing.
- Canonical JSON is any encoder whose decoder reads back what it wrote; SHA-256 is an arbitrary function, and where injectivity would be needed the result names the colliding rows instead.
- Timestamps are kept as integers, not as their decimal text; database, execution and attempt identifiers are byte strings chosen by the environment, repeated or not.
- A recovery observer's own error is reported as an invalid observation; its text is not kept.
- The outcome shape check is an arbitrary predicate; outcome detail fields and the reason text of a recovery record are one opaque value.
- An SQL transaction is all or nothing; I/O errors and the store size budget show as a refusal that leaves the store as it was.
- Process ids, fork checks, the observer-phase re-entry flag and arming native intents: guards that only refuse.
- SQLite, its PRAGMAs, the VFS C interface, shared-memory WAL locks, the RESERVED query, sidecar slots and the context registry: foreign code or code whose meaning rests on it.
- The refusal of lock and unlock on files other than the database, and the validity check before a lock call, show only as a call that fails at once.
- Negative write offsets and truncate sizes are refused before anything else and lie outside the types used.
- Closing a handle whose file cannot be closed: the steps of closing are part of the interleavings, but whether the descriptor is retained is not.
- Path, mount, permission and symlink checks; case-insensitive names that alias one another; reopening directories by identity.
- Cancellation and deadlines are arbitrary interruptions; the mapping of platform read errors to reported reasons is arbitrary.
- Estimated and retained sizes are arbitrary functions of a row or entry; overflow of usize and u128 counters over inputs larger than memory is not modelled.
- Preview admission caps and spill budgets, and the provenance and display text of a row, which compaction only copies; parents are a list in key order.
- Directory listings are sequences of names with contents; native publication is a temporary file and a rename, since crates/sweepx-cache/src/native.rs is not part of this model; copying corrupt bytes into quarantine is not modelled, only that loading reports it.
- The shared state reservation inside a cache reservation is modelled in `StateDirectory`, not composed with `GenerationSession`.
- The JSON parse budget, the writer admission queue, candidate rules, explanations and digest helpers: field copying, or meanings that rest on foreign visitors.
- The size check on allocated token buffers (crates/sweepx-cache/src/windows_state_policy.rs:48-53), a single division.
- Command line, terminal interface, timings, schemas and Python tooling.
