# Verified models of the better-native tooling and packages

This project models the parts of the repository whose correctness depends on order, failure or
accounting, and proves what they promise for every input, run or reachable state.

- **Lock protocols** (`LockPath`, `NativeBuildLock`, `WorkspaceLock`). Contenders, processes, a clock
  and a lock directory form a state machine. Reading a record, asking whether its process is alive,
  looking at the directory, working out its age, and every change of the path are steps of their own;
  processes may crash and time may pass between any two of them. Processes may also end normally: a
  step of its own for the workspace lock, where it matters that no crash is involved, and covered by
  crashes for the native one. Prunes take part in the workspace lock as removers. The runs are values
  (`Trace`), so safety is stated over all of them.
- **Prune planner** (`CacheBudget`, `PrunePlan`, `Prune`, `PruneProperties`, `PruneReport`,
  `PruneTwice`). The planner
  is a class with the source's loops, proved equal to a function of a directory snapshot; accounting,
  protection, the byte budget, eviction order, references and idempotence are proved about that function.
- **Export surface** (`ReExports`, `Surface`). The depth-first walk over cyclic `export *` graphs, with
  its mutable table, is proved to compute a declarative surface: a join over all reachable files.
- **Migrator** (`Migrations`). Overlapping transactions over a table with a primary key.
- **Keep-awake lease** (`KeepAwake`, with `Decimals` for generated tags).
- **Conditional exports** (`Resolution`, `Entrypoints`). Flattening a nested target keeps its meaning.
- **Coverage accounting** (`CoverageMappings`, `Coverage`, `CoverageCounts`), **log chunks** (`LogChunks`) and **case
  numbering** (`CaseNumbering`).

`Seqs`, `Options`, `Runs` and `Decimals` hold the shared vocabulary.

## Where the code does less than one would expect

These are proved with concrete runs or inputs, together with the exact condition under which the code
does what it should.

- The native build lock observes a stale lock and renames it away in separate steps. Without any crash
  and without any time passing, two live processes can then hold it
  (`SplitObservationBreaksMutualExclusion`). A rename breaks mutual exclusion exactly when the directory
  it meets is not stale any more, a directory that a crashed creator left behind apart
  (`VerdictAtRenameDecides`, `WellAimedExactlyWhenVerdictsHold`); when observing and renaming are not
  interrupted, the verdict always holds still (`UninterruptedRunsAreSafe`).
- The workspace lock is safe in crash-free runs, prunes included, exactly when the record is written and
  a missing one followed up within the grace period, and a process that has released outlives the question
  whether it is alive (`TimingBoundIsExact`). Nothing in the code sees to the latter: a holder that
  releases and exits while another process is between reading its record and asking for it makes that
  process remove the next holder's lock (`LateQuestionBreaksIn`). One crash defeats the lock with no delay
  (`OneCrashBreaksMutualExclusion`, and by a prune `PruneRemovesLiveLock`). With crashes, a removal does
  harm exactly when the directory is not stale any more at that moment (`VerdictAtRemovalDecides`).
- After a failed deactivation a keep-awake tag stays active for good: later scopes of the same tag never
  deactivate it (`OneFailureLeaks`, `LeakIsPermanent`). The documentation of `keepAwake` says that the
  activation "is released when the final scope closes"; the code does so exactly when no deactivation has
  failed (`ActiveExactlyWhileHeld`).
- A migration with id 0 never runs, because an empty table counts as latest id 0 (`IdZeroIsNotRun`,
  `RerunRunsNothing`). Overlapping runs with different loaders can commit out of order; they never do
  exactly when of any two loaders that can commit, the smaller greatest id is an id of both
  (`HistoryIncreasesExactlyWhenAligned`, `DisjointLoadersRunOutOfOrder`).
- The coverage summary leaves out packages that export types only, so type totals are complete exactly when
  there is none (`TypeOnlyPackageIsLeftOut`, `TypeTotalsMissTypeOnlyPackages`). A package that is listed
  twice and has atoms shows more unmigrated hooks than it has (`ListedTwiceLooksUnmigrated`,
  `UnmigratedHooksLackAtoms`).
- A chunked result is restored exactly when it has no line break, its run id is a path segment and its
  chunk count is a safe integer (`LineBreakIsNotRestored`, `RoundTrip`). The suite itself only sends
  serialised JSON, which has no raw line break.
- Replacing the separators of a test name once can leave another one. Two results can then get the same
  case id, exactly when two names clash that way (`SomeNamesClash`,
  `ResultIdsAreDistinctExactlyWithoutClash`); names with no separator left do not
  (`PlainNamesDoNotClash`).
- An entrypoint whose only code target can never be selected is still classified as runtime
  (`ShadowedCodeIsNoAsset`). Code is reached exactly when some code branch is not shadowed by an earlier
  branch that needs no further condition (`RuntimeCodeIsReachedExactlyWhenUnshadowed`).

## Model

| member | source | states |
|---|---|---|
| NativeBuildLock.StepKeepsInv | tooling/compatibility-harness/src/artifacts/ArtifactLifecycle.ts:242-323 | every step of any contender, crash or clock tick keeps: at most one live contender inside, its directory at the path, and no record of a live process outside; only a rename that hits a live contender's directory is excepted |
| NativeBuildLock.WellAimedRunsAreSafe | tooling/compatibility-harness/src/artifacts/ArtifactLifecycle.ts:217-324 | mutual exclusion at the end of every run without such a rename, for any number of contenders, crashes, failed writes and delays |
| NativeBuildLock.ReleaseRemovesOwnLock | tooling/compatibility-harness/src/artifacts/ArtifactLifecycle.ts:307-323 | in such runs a holder finds its own token on release and the releasing rename moves a directory carrying that token |
| NativeBuildLock.ReleaseChecksToken | tooling/compatibility-harness/src/artifacts/ArtifactLifecycle.ts:307-318 | in any state: a release goes on to rename if and only if the record at the path carries its token; otherwise it is done and the path stays as it is |
| NativeBuildLock.ReleasingHasSeenItsToken | tooling/compatibility-harness/src/artifacts/ArtifactLifecycle.ts:307-318 | over every run, badly aimed renames by others included, whoever is about to release by renaming has seen its own token at the path |
| NativeBuildLock.VictimLeavesThePath | tooling/compatibility-harness/src/artifacts/ArtifactLifecycle.ts:310 | in the run with two holders, the victim of the rename releases without touching the other's directory |
| NativeBuildLock.FailedWriteFreesThePath | tooling/compatibility-harness/src/artifacts/ArtifactLifecycle.ts:251-258 | a creator that cannot write its record leaves nothing at the path |
| NativeBuildLock.MisdirectedRenameIsExactlyTheFailure | tooling/compatibility-harness/src/artifacts/ArtifactLifecycle.ts:217-229 | a rename that meets a live contender's directory, and no other, lets the renamer in beside that contender at its next step |
| NativeBuildLock.VerdictAtRenameDecides | tooling/compatibility-harness/src/artifacts/ArtifactLifecycle.ts:262-274 | while creators keep to the grace period, a rename breaks mutual exclusion if and only if the directory is there and the staleness checks it passed do not hold any more, one left young and without a record by a crashed creator apart |
| NativeBuildLock.WellAimedExactlyWhenVerdictsHold | tooling/compatibility-harness/src/artifacts/ArtifactLifecycle.ts:262-274 | over whole runs with crashes, no rename hits a live contender's directory if and only if at every rename the directory is still stale or abandoned |
| NativeBuildLock.StaleLockHasNoLiveCreator | tooling/compatibility-harness/src/artifacts/ArtifactLifecycle.ts:262-272 | a lock that passes the staleness checks belongs to no live contender while creators keep to the grace period |
| NativeBuildLock.UninterruptedRunsAreSafe | tooling/compatibility-harness/src/artifacts/ArtifactLifecycle.ts:217-324 | with observing and renaming as one step and records written within the grace period, at most one live process is inside, crashes included |
| NativeBuildLock.SplitObservationBreaksMutualExclusion | tooling/compatibility-harness/src/artifacts/ArtifactLifecycle.ts:262-274 | a run with no crash and no passing time that ends with two live holders, because the stale verdict and the rename are separate |
| NativeBuildLock.AloneStep | tooling/compatibility-harness/src/artifacts/ArtifactLifecycle.ts:242-275 | each step a lone contender takes leads towards acquiring: what it knows of the path after every call of the attempt |
| NativeBuildLock.AcquireAlone | tooling/compatibility-harness/src/artifacts/ArtifactLifecycle.ts:242-298 | a contender that meets no live one acquires, with one retry if something was at the path and none otherwise, and waits only while the directory is within the grace period |
| WorkspaceLock.StepKeepsInv | tooling/compatibility-harness/src/artifacts/ArtifactLifecycle.ts:326-377 | every step of an acquisition, a release, a prune, a crash, an exit or the clock keeps mutual exclusion, ownership, and that a record of a live process belongs to a contender inside, unless a removal hits a live contender's directory |
| WorkspaceLock.WellAimedRunsAreSafe | tooling/compatibility-harness/src/artifacts/ArtifactLifecycle.ts:326-377 | mutual exclusion at the end of every run, crashes and prunes included, without such a removal |
| WorkspaceLock.MisdirectedRemovalIsExactlyTheFailure | tooling/compatibility-harness/src/artifacts/ArtifactLifecycle.ts:351-353 | a removal that meets a live contender's directory, and no other, lets the next creator of the directory in beside that contender; after one of an acquisition the remover itself is next |
| WorkspaceLock.VerdictAtRemovalDecides | tooling/compatibility-harness/src/artifacts/ArtifactLifecycle.ts:334-353 | while creators keep to the grace period, a removal by an acquisition or a prune leaves a live contender without its directory if and only if the staleness checks do not hold any more, a directory left young and without a record by a crashed creator apart |
| WorkspaceLock.WellAimedExactlyWhenVerdictsHold | tooling/compatibility-harness/src/artifacts/ArtifactLifecycle.ts:334-353 | over whole runs with crashes and prunes, no removal hits a live contender's directory if and only if at every removal the directory is still stale or abandoned |
| WorkspaceLock.StepKeepsTimedInv | tooling/compatibility-harness/src/artifacts/ArtifactLifecycle.ts:326-377 | under the delay bounds every step but a crash keeps: nobody is about to remove, every process asked for or named by the record is alive, and every directory without a record has a live creator |
| WorkspaceLock.TimelyRunsAreSafe | tooling/compatibility-harness/src/artifacts/ArtifactLifecycle.ts:326-377 | in crash-free runs under the delay bounds no removal of a stale lock is ever reached, by an acquisition or a prune, and no two contenders are ever inside |
| WorkspaceLock.ReleaseChecksToken | tooling/compatibility-harness/src/artifacts/ArtifactLifecycle.ts:369-376 | in any state: a release goes on to remove if and only if the record at the path carries its token; otherwise it is done and the path stays as it is |
| WorkspaceLock.ReleasingHasSeenItsToken | tooling/compatibility-harness/src/artifacts/ArtifactLifecycle.ts:369-376 | over every run whoever is about to release by removing has seen its own token at the path |
| WorkspaceLock.UndisturbedAcquisition | tooling/compatibility-harness/src/artifacts/ArtifactLifecycle.ts:332-362 | an acquisition with nobody in between comes to hold the lock if and only if nothing was at the path or what was there is stale, and otherwise is refused and leaves the path alone |
| WorkspaceLock.CreatorFoundOrMadeRoom | tooling/compatibility-harness/src/artifacts/ArtifactLifecycle.ts:334-353 | over every run whoever is about to create the directory has found nothing at the path or removed something stale |
| WorkspaceLock.NobodyRetries | tooling/compatibility-harness/src/artifacts/ArtifactLifecycle.ts:332-377 | every step brings a contender further: an acquisition that is overtaken fails |
| WorkspaceLock.TimingBoundIsExact | tooling/compatibility-harness/src/artifacts/ArtifactLifecycle.ts:334-352 | all crash-free runs within the delays are safe if and only if writing the record and following up a missing one together stay below the grace period and asking for a recorded process is quicker than a released process ends |
| WorkspaceLock.LateQuestionBreaksIn | tooling/compatibility-harness/src/artifacts/ArtifactLifecycle.ts:335-336 | otherwise, with no crash: a run in which a record read before its holder releases and exits makes its reader remove the next holder's lock and come in beside it |
| WorkspaceLock.SlowObserverBreaksIn | tooling/compatibility-harness/src/artifacts/ArtifactLifecycle.ts:342-352 | and a run in which a missing record is followed up too late |
| WorkspaceLock.OneCrashBreaksMutualExclusion | tooling/compatibility-harness/src/artifacts/ArtifactLifecycle.ts:334-353 | a run with one crash and no delay in which two recoverers end up inside |
| WorkspaceLock.PruneRemovesLiveLock | tooling/compatibility-harness/src/artifacts/ArtifactLifecycle.ts:455-491 | a run with one crash and no delay in which a prune's removal takes the path from under a live holder |
| CacheBudget.EvictingOne | tooling/compatibility-harness/src/artifacts/ArtifactLifecycle.ts:710-720 | evicting an entry lowers the remaining bytes by exactly its size and that of the indexes referring to it, each subtracted once |
| CacheBudget.BeforeEviction | tooling/compatibility-harness/src/artifacts/ArtifactLifecycle.ts:687-700 | before any eviction, what remains is everything but the obsolete entries |
| CacheBudget.EvictionIsLeastPrefix | tooling/compatibility-harness/src/artifacts/ArtifactLifecycle.ts:701-719 | the evicted entries are a prefix of the least-recently-used order and the shortest one that fits the budget |
| CacheBudget.RestFitsBudget | tooling/compatibility-harness/src/artifacts/ArtifactLifecycle.ts:701-719 | what remains fits the budget, or nothing remains at all |
| CacheBudget.KeptIndexesHaveEntries | tooling/compatibility-harness/src/artifacts/ArtifactLifecycle.ts:710-716 | no kept index refers to a deleted entry |
| CacheBudget.FinalBytes | tooling/compatibility-harness/src/artifacts/ArtifactLifecycle.ts:687-725 | the running total is the size of the entries not marked for deletion |
| PrunePlan.CollectedIsWellLinked | tooling/compatibility-harness/src/artifacts/ArtifactLifecycle.ts:573-686 | the scan collects different paths, marks exactly the obsolete ones, and links indexes to current entries only |
| Prune.Pruner.ScanLocks | tooling/compatibility-harness/src/artifacts/ArtifactLifecycle.ts:432-493 | the lock loop adds the guarded workspace names and one decision per lock |
| Prune.Pruner.ScanWorkspaces | tooling/compatibility-harness/src/artifacts/ArtifactLifecycle.ts:495-561 | the workspace loops protect linked and active workspaces and decide about the unlocked ones by age |
| Prune.Pruner.ScanCache | tooling/compatibility-harness/src/artifacts/ArtifactLifecycle.ts:573-612 | one cache directory: links are protected, the rest is collected with its schema's initial decision |
| Prune.Pruner.ScanIndexes | tooling/compatibility-harness/src/artifacts/ArtifactLifecycle.ts:613-686 | indexes are linked to the collected entry they name, or marked as orphaned |
| Prune.Pruner.EvictOne | tooling/compatibility-harness/src/artifacts/ArtifactLifecycle.ts:708-719 | marking one entry and its indexes in place and lowering the running total agree with the specification of what survives |
| Prune.Pruner.Evict | tooling/compatibility-harness/src/artifacts/ArtifactLifecycle.ts:698-720 | the eviction loop leaves exactly the specified decisions and total |
| Prune.Pruner.VisitRuns | tooling/compatibility-harness/src/artifacts/ArtifactLifecycle.ts:729-756 | the recursive walk adds exactly the entries of the plan's run part |
| PruneProperties.ExpiredRunsAreTheOldBulkyOutputs | tooling/compatibility-harness/src/artifacts/ArtifactLifecycle.ts:729-756 | an entry is in the run part if and only if it deletes a bulky output at least seven days old to which a way down through directories leads, under that way's path; no way leads through a link |
| PruneProperties.ReportedRunOutputs | tooling/compatibility-harness/src/artifacts/ArtifactLifecycle.ts:727-772 | the run outputs of a report are exactly those |
| Prune.Pruner.Run | tooling/compatibility-harness/src/artifacts/ArtifactLifecycle.ts:402-772 | the whole imperative pass returns the plan specified for the snapshot |
| PruneProperties.EntrySource | tooling/compatibility-harness/src/artifacts/ArtifactLifecycle.ts:402-772 | every entry of a report comes from one item of the snapshot and carries its decision |
| PruneReport.ItemIsReported | tooling/compatibility-harness/src/artifacts/ArtifactLifecycle.ts:573-686 | every scanned cache item has exactly one entry in the report, with its own size, last use and kind |
| PruneReport.LeastRecentlyUsedGoFirst | tooling/compatibility-harness/src/artifacts/ArtifactLifecycle.ts:701-707 | with no active build, a current item used before a deleted one, or at the same time and first in path order, is deleted too, whichever cache they are in |
| PruneReport.NothingGoesWithinBudget | tooling/compatibility-harness/src/artifacts/ArtifactLifecycle.ts:688-707 | no current item is deleted while the cache is within the budget |
| PruneReport.ObsoleteItemsGo | tooling/compatibility-harness/src/artifacts/ArtifactLifecycle.ts:599-610 | every item of the obsolete layouts is deleted whenever no build is active |
| PruneReport.IndexFollowsItsEntry | tooling/compatibility-harness/src/artifacts/ArtifactLifecycle.ts:639-716 | with no active build an index is kept if and only if it names a scanned entry that is kept |
| PruneReport.LinksAreReported | tooling/compatibility-harness/src/artifacts/ArtifactLifecycle.ts:574-598 | links in cache directories, and cache directories that are links, are protected |
| PruneReport.LockIsReported | tooling/compatibility-harness/src/artifacts/ArtifactLifecycle.ts:442-491 | every lock is protected if it is a link, names a live process, or has no record and was touched under 60 seconds ago, and is deleted otherwise, at its own size and last use |
| PruneReport.LockInUseProtects | tooling/compatibility-harness/src/artifacts/ArtifactLifecycle.ts:455-481 | a lock in use protects the workspace its record names, or that of its own name while it has none, and every cache entry |
| PruneReport.WorkspaceIsReported | tooling/compatibility-harness/src/artifacts/ArtifactLifecycle.ts:514-561 | every workspace has an entry with its own size and last use |
| PruneProperties.ActiveWorkIsProtected | tooling/compatibility-harness/src/artifacts/ArtifactLifecycle.ts:432-561 | by the snapshot it scans, a plan deletes no workspace of a live or initialising lock, nor that lock, nor any cache entry while there is such a lock |
| PruneProperties.OnlyTheNewestFailureIsKept | tooling/compatibility-harness/src/artifacts/ArtifactLifecycle.ts:546-561 | at most one unlocked workspace is kept, a newest one under 24 hours old, and one is kept whenever some unlocked one is that young |
| PruneProperties.WorkspaceDecision | tooling/compatibility-harness/src/artifacts/ArtifactLifecycle.ts:495-561 | the decision of the report about each workspace |
| PruneProperties.CleanAllRefusesExactlyWhenInUse | tooling/compatibility-harness/src/artifacts/ArtifactLifecycle.ts:793-801 | cleaning everything is refused if and only if a directory, lock or workspace is a link or a lock is live or initialising |
| PruneProperties.ReportAddsUp | tooling/compatibility-harness/src/artifacts/ArtifactLifecycle.ts:687-772 | before, after and reclaimed bytes are the sizes of the report's entries, and reclaimed is the cache decrease plus everything deleted elsewhere |
| PruneProperties.BudgetIsKept | tooling/compatibility-harness/src/artifacts/ArtifactLifecycle.ts:687-719 | for a budget of at least zero the cache ends within it if and only if no build is active, nothing is traversed, or it was within it before |
| PruneProperties.EvictionIsLeastRecentlyUsed | tooling/compatibility-harness/src/artifacts/ArtifactLifecycle.ts:701-719 | with no active build the deleted current entries are a prefix in (last use, path) order, and before the last eviction the budget was still exceeded |
| PruneProperties.IndexesKeepTheirEntries | tooling/compatibility-harness/src/artifacts/ArtifactLifecycle.ts:639-725 | every index that is not deleted refers to an entry that is not deleted |
| PruneTwice.CollectedAfter | tooling/compatibility-harness/src/artifacts/ArtifactLifecycle.ts:573-686 | scanning after the plan is carried out collects what was collected before, less what was deleted |
| PruneTwice.CacheAfter | tooling/compatibility-harness/src/artifacts/ArtifactLifecycle.ts:687-725 | the second plan deletes no cache entry and starts and ends at the first one's final size |
| PruneTwice.PruningTwiceDeletesNothing | tooling/compatibility-harness/src/artifacts/ArtifactLifecycle.ts:402-772 | applying a plan and planning again at the same time with the same live processes deletes and reclaims nothing |
| ReExports.FoundByChain | tooling/compatibility-harness/src/catalog/Surface.ts:105-156 | a kind that the search returns is given by a statement at the end of a real chain of re-exports from the query |
| ReExports.VerdictMeans | tooling/compatibility-harness/src/catalog/Surface.ts:116-153 | what each form of statement says about a name: the kind it gives, the source name and file it forwards to, or a file to try |
| ReExports.NotFoundExhausts | tooling/compatibility-harness/src/catalog/Surface.ts:105-156 | a search that finds nothing has seen everything one hop away from everything it has seen |
| ReExports.KindIsFoundExactlyWhenDefined | tooling/compatibility-harness/src/catalog/Surface.ts:105-156 | on every cyclic graph the search, with its shared set of seen keys, finds a kind if and only if some chain of re-exports ends at one |
| ReExports.FirstKindIsFound | tooling/compatibility-harness/src/catalog/Surface.ts:105-156 | the kind found is that of the first chain in statement order among those that pass no key twice; the shared set of seen keys never hides it |
| Surface.MergeKindIsJoin | tooling/compatibility-harness/src/catalog/Surface.ts:21-26 | merging two kinds is the least upper bound of an order, commutative and idempotent |
| Surface.JoinExtends | tooling/compatibility-harness/src/catalog/Surface.ts:98-104 | merging one more kind into the join of a set is the join of the larger set, so merging order and repetition do not matter |
| Surface.AddedDescribes | tooling/compatibility-harness/src/catalog/Surface.ts:98-104 | adding an occurrence keeps the table equal to names, joined kinds and supplying files of the occurrences so far |
| Surface.SurfaceIsDetermined | tooling/compatibility-harness/src/catalog/Surface.ts:90-220 | entry files in another order or repeated give the same table |
| Surface.StatementLists | tooling/compatibility-harness/src/catalog/Surface.ts:163-216 | what each form of statement exports by itself; a renamed element has the kind of the first trail from its source name in the target, or `value-and-type` if there is none |
| Surface.SurfaceTabulates | tooling/compatibility-harness/src/catalog/Surface.ts:90-220 | a file is among the paths of a name if and only if it is reachable and one of its statements exports it, and the name's kind is the least that all those kinds are below |
| Surface.Walker.KindOfKey | tooling/compatibility-harness/src/catalog/Surface.ts:105-156 | the imperative search returns the specified kind |
| Surface.Walker.AddStatement | tooling/compatibility-harness/src/catalog/Surface.ts:163-216 | one statement adds exactly the exports it makes by itself |
| Surface.Walker.Visit | tooling/compatibility-harness/src/catalog/Surface.ts:157-217 | the recursive walk visits only files reachable through `export *`, leaves no edge out of them unvisited and adds exactly their exports |
| Surface.Walker.ExportsOf | tooling/compatibility-harness/src/catalog/Surface.ts:90-220 | the table lists, in terms of the statements alone, the names, least kinds and supplying files of everything reachable from the entry files |
| Migrations.LoadedInOrder | packages/sqlite/src/SqliteMigrator.ts:274-318 | a loader yields exactly the entries that parse, sorted by id |
| Migrations.PendingSharesGreatest | packages/sqlite/src/SqliteMigrator.ts:218-221 | two non-empty "id above latest" parts of one sorted list share the list's greatest id |
| Migrations.SomeRowIsShared | packages/sqlite/src/SqliteMigrator.ts:199-229 | runs of aligned loaders that read the same latest id both insert a row for the same id, so one of them conflicts |
| Migrations.GrowingAreAligned | packages/sqlite/src/SqliteMigrator.ts:274-318 | loaders that only grow are aligned |
| Migrations.NoMigrationCommitsTwice | packages/sqlite/src/SqliteMigrator.ts:190-258 | over every interleaving of runs with any loaders no id commits twice, and the table holds its initial rows and exactly the rows of the committed migrations |
| Migrations.HistoryIsIncreasing | packages/sqlite/src/SqliteMigrator.ts:190-258 | with sorted and aligned loaders and any failures the committed sequence is strictly increasing in id, above all ids recorded at first |
| Migrations.HistoryIncreasesExactlyWhenAligned | packages/sqlite/src/SqliteMigrator.ts:190-258 | sorted loaders keep the committed sequence increasing over every interleaving, table and failure if and only if of each two that can commit the smaller greatest id is an id of both |
| Migrations.AlignedExactlyWhenPendingMeets | packages/sqlite/src/SqliteMigrator.ts:199-229 | that condition holds if and only if, whatever latest id two runs have read, their pending ids meet unless one has none |
| Migrations.OverlappedRunChangesNothing | packages/sqlite/src/SqliteMigrator.ts:222-258 | a run overtaken by a commit since its reading changes nothing: it returns the empty result unless it fails before its effects |
| Migrations.FinishEndsAs | packages/sqlite/src/SqliteMigrator.ts:190-258 | how every transaction ends: each failure exactly from its own cause, a conflict as an empty completion, and otherwise all pending migrations in the loader's order |
| Migrations.ConflictCompletesEmpty | packages/sqlite/src/SqliteMigrator.ts:222-258 | a conflict with a recorded id completes empty with table and history unchanged, whatever effects would fail |
| Migrations.RerunRunsNothing | packages/sqlite/src/SqliteMigrator.ts:199-249 | in every run of the system with any loaders: after a transaction succeeds, its loader's migrations are recorded exactly if they were before or their id is above the one read, and running that loader again runs nothing |
| Migrations.IdZeroIsNotRun | packages/sqlite/src/SqliteMigrator.ts:199-213 | a loader with the single id 0 succeeds on an empty table without running or recording it |
| Migrations.DisjointLoadersRunOutOfOrder | packages/sqlite/src/SqliteMigrator.ts:199-229 | a run of two unrelated loaders in which both commit, the greater id first |
| Migrations.UniqueByCount | packages/sqlite/src/SqliteMigrator.ts:206-211 | comparing the number of different ids with the length detects exactly the repeated ids |
| Migrations.Migrator.Import | packages/sqlite/src/SqliteMigrator.ts:212-218 | the loop imports exactly the migrations above the latest id or stops at one that does not import |
| Migrations.Migrator.Transact | packages/sqlite/src/SqliteMigrator.ts:199-258 | the transaction ends in exactly those ways; a failure leaves table and history as they were and a completion adds the rows and effects of what it returns |
| KeepAwake.StepsAreLocal | packages/keep-awake/src/KeepAwake.ts:129-149 | a step leaves every other tag alone, and a failed activation leaves counts, active tags and scopes unchanged |
| KeepAwake.LeaseIsKept | packages/keep-awake/src/KeepAwake.ts:129-149 | over every interleaving of scopes and native failures: the count exceeds the open scopes by one exactly after a failed deactivation, the tag is active exactly while counted, and successful native calls alternate |
| KeepAwake.ActiveExactlyWhileHeld | packages/keep-awake/src/KeepAwake.ts:225-263 | a tag with an open scope is active; one without is inactive if and only if no deactivation of it failed |
| KeepAwake.OneFailureLeaks | packages/keep-awake/src/KeepAwake.ts:139-149 | one scope whose deactivation fails leaves its tag active after it has closed |
| KeepAwake.LeakIsPermanent | packages/keep-awake/src/KeepAwake.ts:139-149 | after a failed deactivation the tag stays active in every continuation and no native call is made for it again |
| KeepAwake.GeneratedTagsDiffer | packages/keep-awake/src/KeepAwake.ts:112-114 | generated tags are equal only for equal counter values |
| KeepAwake.Service.Acquire | packages/keep-awake/src/KeepAwake.ts:129-137 | acquiring replaces the counts as specified and fails exactly when it is the tag's first lease and the activation fails |
| KeepAwake.Service.Release | packages/keep-awake/src/KeepAwake.ts:139-149 | releasing replaces the counts as specified and fails exactly when the last lease's deactivation fails |
| KeepAwake.Service.KeepAwake | packages/keep-awake/src/KeepAwake.ts:251-263 | nothing happens where keep-awake is unavailable; otherwise the given tag, or a new one, is leased |
| Resolution.FlatteningPreservesResolution | tooling/compatibility-harness/src/catalog/Resolution.ts:18-48 | for every set of active conditions the first branch whose conditions are all active has the target that recursive first-match resolution finds, null included |
| Resolution.BranchesAddressLeaves | tooling/compatibility-harness/src/catalog/Resolution.ts:18-48 | a branch is listed if and only if walking the value by its conditions and indexes ends at its target, and no two branches share an address |
| Resolution.PlatformHints | tooling/compatibility-harness/src/catalog/Resolution.ts:7-16 | which conditions make a branch a hint for each platform |
| Entrypoints.TargetsAreTheBranchTargets | tooling/compatibility-harness/src/catalog/Entrypoint.ts:9-14 | the second traversal finds the non-null branch targets in the same order |
| Entrypoints.AssetsHaveNoCode | tooling/compatibility-harness/src/catalog/Entrypoint.ts:30-58 | outside the conventional subpaths the kind is asset exactly when there are targets and none is code, and then no set of conditions resolves to code |
| Entrypoints.KindByBranches | tooling/compatibility-harness/src/catalog/Entrypoint.ts:30-58 | each kind in terms of the subpath and of the branches' targets, with its precedence |
| Entrypoints.ShadowedCodeIsNoAsset | tooling/compatibility-harness/src/catalog/Entrypoint.ts:50-57 | the converse fails: a value that never resolves to code and is classified as runtime |
| Entrypoints.CodeIsReachedExactlyWhenUnshadowed | tooling/compatibility-harness/src/catalog/Resolution.ts:18-48 | some set of conditions resolves a value to code if and only if a code branch has no earlier branch whose conditions are all default or among its own |
| Entrypoints.RuntimeCodeIsReachedExactlyWhenUnshadowed | tooling/compatibility-harness/src/catalog/Entrypoint.ts:50-58 | outside the conventional subpaths an entrypoint is classified as runtime and reaches code for some conditions if and only if it has such a branch |
| CoverageMappings.KeysDiffer | tooling/compatibility-harness/src/Coverage.ts:333 | the key of an export without the separator in package or name determines both |
| CoverageMappings.ValidateMappings | tooling/compatibility-harness/src/Coverage.ts:346-396 | the loop reports the first mapping with a problem and which one, or none |
| CoverageMappings.ValidateTypeMappings | tooling/compatibility-harness/src/Coverage.ts:397-415 | the same for type mappings |
| CoverageMappings.Validate | tooling/compatibility-harness/src/Coverage.ts:335-417 | validation passes if and only if the revision matches and the mappings are valid as a whole, and otherwise reports the first problem |
| CoverageMappings.ValidWithoutProblem | tooling/compatibility-harness/src/Coverage.ts:346-396 | checking mapping by mapping is equivalent to: no key twice, all well documented, atoms only for Expo-compatible hooks and none twice |
| CoverageMappings.ReportedProblemIsReal | tooling/compatibility-harness/src/Coverage.ts:346-415 | a reported problem names a mapping that has it |
| Coverage.GroupEntries | tooling/compatibility-harness/src/Coverage.ts:670-674 | the grouping loop keeps each package's entries in order and the packages in order of first occurrence |
| Coverage.Summarize | tooling/compatibility-harness/src/Coverage.ts:665-688 | the summary has one line per package with a value export, computed from that package's entries and types alone |
| Coverage.Inspect | tooling/compatibility-harness/src/Coverage.ts:833-888 | there is a report if and only if mappings are valid, targets sound and no mapping stale; what the report is, and which check failed otherwise |
| Coverage.AccountedExportsAreTheMappings | tooling/compatibility-harness/src/Coverage.ts:532-809 | with valid mappings and none stale, accounted exports are at least the mappings, and as many if and only if no accounted export is listed twice |
| Coverage.ReportAccountsForEveryMapping | tooling/compatibility-harness/src/Coverage.ts:833-888 | in every report on well-named packages the accounted exports of all packages sum to the number of mappings |
| CoverageCounts.SummaryCountsExports | tooling/compatibility-harness/src/Coverage.ts:612-660 | a package's exports, types and APIs are those it exports, and the accounted ones are as many as its mappings |
| CoverageCounts.SummaryCountsKinds | tooling/compatibility-harness/src/Coverage.ts:612-660 | every count by kind, deprecation, hook, atom or divergence is the number of the package's mappings that say so |
| CoverageCounts.CompleteMeans | tooling/compatibility-harness/src/Coverage.ts:634-640 | when a package is graded complete or intentionally diverging |
| CoverageCounts.EntryOfMapping | tooling/compatibility-harness/src/Coverage.ts:544-578 | the entry of a mapped export has its mapping's status, target, reason, deprecation and atom |
| CoverageCounts.NotStaleIsCovered | tooling/compatibility-harness/src/Coverage.ts:796-809 | no mapping is stale if and only if each is of an export |
| Coverage.ReportIsInOrder | tooling/compatibility-harness/src/Coverage.ts:874-887 | the report's lists are in order, with nothing lost or added |
| Coverage.CountsAddUp | tooling/compatibility-harness/src/Coverage.ts:665-688 | any count of entries held per package sums to that count over all entries |
| Coverage.ExportTotals | tooling/compatibility-harness/src/Coverage.ts:637-688 | exports, accounted exports and hooks of all packages sum to those of all entries |
| Coverage.TypeTotalsMissTypeOnlyPackages | tooling/compatibility-harness/src/Coverage.ts:665-688 | type counts sum to all types if and only if every package with a type has a value export |
| Coverage.TypeOnlyPackageIsLeftOut | tooling/compatibility-harness/src/Coverage.ts:665-688 | a package with one type and no value export has no summary |
| Coverage.UnmigratedHooksLackAtoms | tooling/compatibility-harness/src/Coverage.ts:604-625 | unmigrated hooks are never fewer than the hooks without an atom, and exactly those if and only if the package is listed once or has no atoms |
| Coverage.ListedTwiceLooksUnmigrated | tooling/compatibility-harness/src/Coverage.ts:604-625 | a package listed twice whose only hook has an atom shows one unmigrated hook |
| Coverage.IncompleteExactlyWithAGap | tooling/compatibility-harness/src/Coverage.ts:618-641 | a package listed once is graded missing if and only if an export or type is unmapped or a hook has no atom |
| LogChunks.ChunksCover | apps/compatibility-suite/src/Runner.ts:71-76 | joining the first chunks gives back the start of the string they cover |
| LogChunks.ChunkSizes | apps/compatibility-suite/src/Runner.ts:69-81 | every chunk has at most 2000 characters and the total field's chunks reach the end of the string |
| LogChunks.LineIsParsed | tooling/compatibility-harness/src/supervision/PlatformDrivers.ts:174-197 | a chunk line is read back as written, whatever text stands before its marker or after its length |
| LogChunks.ParsedExactlyWhenCarried | tooling/compatibility-harness/src/supervision/PlatformDrivers.ts:174-194 | a line gives a piece of the requested run if and only if it spells that run id, safe numbers in range and enough text after its first marker |
| LogChunks.OtherRunIsSkipped | tooling/compatibility-harness/src/supervision/PlatformDrivers.ts:178-179 | a chunk of another run is never read for this one, whatever stands around it |
| LogChunks.OtherRunsDoNotMatter | tooling/compatibility-harness/src/supervision/PlatformDrivers.ts:171-203 | chunks of other runs anywhere in a log do not change what is decoded, and alone give nothing |
| LogChunks.ReceivedIs | tooling/compatibility-harness/src/supervision/PlatformDrivers.ts:172-197 | after any pieces: the first piece's total counts, and of the pieces with it the latest for each index |
| LogChunks.ResultFromLogChunks | tooling/compatibility-harness/src/supervision/PlatformDrivers.ts:171-203 | the supervisor's loop computes the specified decoding |
| LogChunks.RestoredExactlyWhenComplete | tooling/compatibility-harness/src/supervision/PlatformDrivers.ts:174-202 | chunks in any order and repeated are put together exactly when all have arrived; otherwise there is no result |
| LogChunks.RoundTrip | apps/compatibility-suite/src/Runner.ts:69-81 | sending and receiving restores a string if and only if the run id is a path segment, the string has no line break and the chunk count is safe |
| LogChunks.ResultRoundTrip | apps/compatibility-suite/src/Runner.ts:69-81 | the round trip with the marker both programs use |
| LogChunks.LineBreakIsNotRestored | apps/compatibility-suite/src/Runner.ts:71-81 | the chunking function, given a string with a line break, sends lines from which it is not restored |
| LogChunks.LogRoundTrip | tooling/compatibility-harness/src/supervision/PlatformDrivers.ts:171-203 | the same through a log with other lines and with text around the chunks, restored exactly when every chunk is there |
| CaseNumbering.SpecFilter.Accept | apps/compatibility-suite/src/Runner.ts:279-290 | one filter call extends counters and map to those of one more registered spec |
| CaseNumbering.MatchedByKey | apps/compatibility-suite/src/Runner.ts:283-289 | a spec is given a case exactly when one has its name and number |
| CaseNumbering.CaseNamesItsSpec | apps/compatibility-suite/src/Runner.ts:104-107 | a case id without a number is the first spec of its name, one with a number that one |
| CaseNumbering.KnownCaseIsMatched | apps/compatibility-suite/src/Runner.ts:270-289 | a case is given to the spec registered as that number of that name |
| CaseNumbering.MatchedIsLatest | apps/compatibility-suite/src/Runner.ts:283-289 | where an id is registered again, the latest registration with a case decides |
| CaseNumbering.CasesAreMatchedOnce | apps/compatibility-suite/src/Runner.ts:270-291 | for every registration order with repeated names, no static case id is given to two specs |
| CaseNumbering.Reporter.SpecDone | apps/compatibility-suite/src/Runner.ts:296-307 | one finished spec adds its given or discovered case id |
| CaseNumbering.ResultIdsAreDistinctExactlyWithoutClash | apps/compatibility-suite/src/Runner.ts:270-308 | whatever cases are known, results in registration order get different case ids if and only if no name, with its separators replaced again, is another's with the same number |
| CaseNumbering.SomeNamesClash | apps/compatibility-suite/src/Runner.ts:270-308 | two names that clash and a case list for which their results get one id |
| CaseNumbering.PlainNamesDoNotClash | apps/compatibility-suite/src/Runner.ts:107 | names without a separator left after the replacement do not clash |

## Left out

- File-system details: partial recursive removal, permission errors, the recursion of `physicalSize`, disk-space probing in `pruneBeforeBuild`, and I/O errors other than a failing owner-record write of the native lock.
- Owner records: JSON parsing is abstract; a record is readable or not, and looking for its file and reading it are one observation. Process ids are not reused, and a process that may not be signalled counts as the liveness check says.
- PruneProperties.ActiveWorkIsProtected: speaks of the scanned snapshot, because the plan does; a workspace that is locked between the scan and the removals is not protected by it. For the locks themselves `WorkspaceLock` models prunes as removers step by step; the removal of workspace directories and cache entries after the scan is not modelled that way.
- `publishNativeProduct` and the other artifact services beside locks, pruning and `cleanAll`.
- The prune report's reason texts, the final sort of its entries by path, and the removal calls themselves; `PruneTwice` models the removal as leaving the deleted paths out of the snapshot. Directory names are listed once each.
- `localeCompare` is an abstract order (`collate`), and sorting is stable as in the language.
- TypeScript parsing, binding patterns and `moduleCandidates`: statements arrive with their module specifier resolved.
- The keys `file#name` of the re-export search are modelled as pairs, so a file name containing the separator is not confused with another.
- SQL dialects, table creation, `dumpSchema`, the key patterns of the loaders and the import of migration modules; a loader entry parses or not, a migration imports or not. Transactions are atomic and the table has its primary key.
- Keep-awake: interruption, a failing availability check, manual `activate` and `deactivate` calls on a leased tag, event streams, and more than one service (each has its own counts). A failed native call is taken to change nothing.
- The patterns by which `classify` recognises conventional subpaths and code files are parameters; `fromManifest` only selects values.
- Object keys in JSON are taken in the order the runtime lists them.
- Coverage: extraction of exports with the TypeScript compiler, and the text of `validateCoverageTarget`, which is a predicate on entries; table rendering.
- Log chunks: strings are sequences of Dafny characters, which include no surrogates, where the source counts UTF-16 code units; a chunk boundary inside a surrogate pair, which a log written as UTF-8 does not keep, is not part of this model. Nor is the device log itself, apart from lines that are lost, repeated, reordered or surrounded by text.
- Case numbering: Jasmine itself; every spec is registered with one filter call and has an id of its own, and results are taken in the order of registration where they are compared.
- Metro policy, CLI checks, gate evidence, Expo listener wrappers, the SQLite client's semaphore, supervisor and worker code, user interface and configuration: outside this model.
