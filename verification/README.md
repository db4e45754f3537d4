# zhold-store: a verified model

zhold-store keeps build directories ("arenas") for many processes at once. Nothing but file locks
and JSON documents coordinates them, any process may die between two steps, and whoever comes next
repairs what was left. This project models the protocols of that store and the eviction planner of
zhold-core, and proves what they promise over whole runs.

| file | what it models | main results |
|---|---|---|
| `MetadataDirectory.dfy`, `JsonPublication.dfy` | a directory as durable entries plus pending name operations; the publication protocol, hard-link creation, upsert, reads | crash images, honest reports, unlocked reads |
| `ArenaManifest.dfy` | the manifest object and its rewrites | revision discipline, lifecycle |
| `ArenaProtocol.dfy`, `ArenaProtocolProof.dfy`, `ArenaProtocolTheorems.dfy` | any number of processes on one arena identity: lease, child, retirement, recovery, pins, deaths | pins, retired trees, recovery |
| `ArenaProtocolLive.dfy`, `ArenaProtocolAlone.dfy`, `ArenaProtocolRuns.dfy` | Cargo trees that may be alive; what a process left to itself can do; runs that exist | live trees are protected exactly under current confirmations; a whole reconciliation pass is a run |
| `Reconcile.dfy`, `ReconcileTheorems.dfy`, `ReconcileRuns.dfy` | one reconciliation pass over interrupted retirements, and the stores that runs lead it to | what it leaves under any leases, exactly when it is idempotent |
| `Initialization.dfy` | creation of a new arena and its recovery, with failing calls | every crash point recovers |
| `ByteSizes.dfy`, `Accounting.dfy` | saturating byte counts, budget accounting, admissions, the snapshot | the budget between admissions |
| `Sorting.dfy`, `Retention.dfy`, `HistoryDisk.dfy`, `History.dfy` | receipt order, the removal plan, the count/bytes index under process death and power loss | exactly when the index never under-counts; it is invisible in the outcome |
| `Planner.dfy` | the eviction planner | who is evicted, in which order and why; completeness for all sums, order independence |
| `Worktree.dfy`, `WorktreeRuns.dfy` | registrations, gates, hooks, build admission | no lease beside removal, one live record per path |
| `Locks.dfy`, `LockTables.dfy`, `ArenaLocks.dfy`, `ArenaSimulation.dfy`, `WorktreeLocks.dfy` | the lock order of all of the above; the protocols as runs of the lock model | no deadlock, in the lock model and in the protocols |
| `Includes.dfy` | the include loader of Cargo configuration | fails exactly on cycles and bad files, and says where; last program wins |
| `Prelude.dfy`, `Sequences.dfy`, `Faults.dfy`, `Runs.dfy` | shared types, sequences as bags, failing calls, runs of a transition system | |

Conventions. A crash point is an element of a ghost `trace`, or any state of a run. A class field
`faulty` says whether file system calls may fail; a failing call has either taken effect or not,
except where the protocol's own code can rely on an atomic rename. Identities, nonces and keys are
opaque numbers, and fresh nonces are unused ones. A document's values are numbered from 1 in the
order in which their writes are attempted. Parts above the JSON layer treat a document as a
register whose write is done, done but reported as an error, or not done, which is what the JSON
layer's contracts justify.

Where a promise is not kept by the code in every case, the model keeps the code as it is, shows a
failing case, and proves the exact condition:

* Live trees. `recover_suspect` names an arena, not a build, so an operator's confirmation may be
  stale; a run in which a live tree's arena is leased again is `AStaleConfirmationFreesALiveArena`.
  Over any run live trees are protected exactly when no recovery is stored while a tree is alive
  (`LiveTreesAreProtectedExactlyByCurrentConfirmations`).
* History. A prune that dies before it syncs the receipts directory leaves a removal that power
  loss can undo; if the index is rebuilt meanwhile it under-counts afterwards
  (`AnUnsyncedRemovalComesBack`). Over any history, with power loss anywhere, no crash image
  under-counts exactly when no index is rebuilt while a removal is unsynced
  (`CrashesCountExactlyAfterTidyRebuilds`). Under process death alone it never under-counts
  (`DeathsNeverUnderCount`). A clean index is not exact: any removal makes it over-count
  (`RemovalMakesACleanIndexOverCount`).
* Reconciliation is idempotent, whatever leases are held, exactly when no journal is `Stranded`, that
  is when no journal left by an older retirement of an arena sorts before the journal that resumes a
  newer one of the same arena (`PassIsIdempotentExactlyWhenNothingIsStranded`); `AStrandedJournalNeedsASecondPass` is a
  store that runs reach. Two passes always settle (`TwoPassesSettle`).
* Accounting. A build that ends without a successful measurement gives its reservation back although
  its growth was never recorded. Over any run bytes stay covered exactly when no growth is lost so
  (`CoverageHoldsExactlyWithoutLostGrowth`), and one such end can leave twice the budget
  (`AnUnmeasuredEndBreaksTheBudget`).
* Planner. Saturated totals can claim a budget met that is not (`SaturatedTotalHidesAnOverrun`); the
  decision is wrong exactly when the budget lies between what saturation leaves and what is left
  (`DecisionIsWrongExactlyUnderSaturation`).
* Revisions saturate: at the last revision a new build hides behind an unchanged revision, and a
  change shows exactly below it (`RevisionGrowsExactlyBelowTheLimit`, `SaturatedRevisionHidesABuild`).

## Model

| member | source | states |
|---|---|---|
| MetadataDirectory.SurvivorsAreSubsequences | crates/zhold-store/src/io/json_publish.rs:200-209 | the crash images of a directory are exactly the ordered subsequences of the unsynced name operations, each operation whole |
| JsonPublication.Document.WriteJson | crates/zhold-store/src/io/json_file.rs:57-75 | in every fault case: an error leaves the visible value alone, an unconfirmed write makes the new value visible, a durable one makes every crash image read it; at each instant in between readers see the old or the new value; without faults the write is durable and clean |
| JsonPublication.Document.ReplaceWithBackup | crates/zhold-store/src/io/json_publish.rs:74-162 | the same report contract for the rotation itself, from each of the four source shapes, with every instant crash safe |
| JsonPublication.Document.ClearBackup | crates/zhold-store/src/io/json_publish.rs:86-95 | the older backup goes only after the primary's entry is durable, and on success its own removal is durable |
| JsonPublication.Document.PrepareTarget | crates/zhold-store/src/io/json_publish.rs:83-115 | on success the primary name is free, durably if it was taken, and the previous value is in a backup that parses; readers see that value throughout |
| JsonPublication.Document.RestoreBackup | crates/zhold-store/src/io/json_publish.rs:116-127 | a publication that failed leaves the previous value visible, whether or not the restoring rename succeeds |
| JsonPublication.Document.FinishPublication | crates/zhold-store/src/io/json_publish.rs:128-139 | the directory sync is the commit boundary between unconfirmed and durable |
| JsonPublication.Document.RemoveBackup | crates/zhold-store/src/io/json_publish.rs:140-161 | cleanup after the commit never turns into an error and never lets a crash image read anything but the new value |
| JsonPublication.Document.PublicationSource | crates/zhold-store/src/io/json_file.rs:172-194 | the source names the generation readers see; on a reachable directory it is never an error |
| JsonPublication.Document.CreateJson | crates/zhold-store/src/io/json_create.rs:42-101 | Existing and errors change nothing visible, Published makes the new value visible, durable publication makes every crash image read it |
| JsonPublication.Document.UpsertJson | crates/zhold-store/src/io/json_document.rs:52-61 | success is durable for every crash image; an error leaves the old or the new value |
| JsonPublication.Document.LosePower | crates/zhold-store/src/io/json_publish.rs:74-162 | whatever a power loss leaves is a document from which the chain of writes goes on, no older than the last value reported durable |
| JsonPublication.PowerLossIsSound | crates/zhold-store/src/io/json_file.rs:172-194 | every crash image of every instant has a backup that parses and no torn primary without one |
| JsonPublication.BackupWasVisible | crates/zhold-store/src/io/json_file.rs:38-45 | a backup found after the primary could not be read was the document's value in between |
| JsonPublication.UnlockedReadIsLinearizable | crates/zhold-store/src/io/json_file.rs:22-45 | a read without a lock, its checks and reads at separate instants of a running writer, fails or returns a value the document held during the read |
| JsonPublication.StillReadIsTheDocument | crates/zhold-store/src/io/json_file.rs:22-45 | on a directory that stands still a read answers the primary if it parses, else a backup that parses, else nothing, and that is the visible value |
| JsonPublication.QuietReadIsTheDocument | crates/zhold-store/src/io/json_file.rs:22-45 | so does a read all of whose looks see the same directory, whatever runs before and after |
| JsonPublication.CrashedReadIsRecent | crates/zhold-store/src/io/json_file.rs:22-45 | a read of any crash image answers a written generation at least as new as the last one reported durable, and nothing only if none was |
| JsonPublication.RecoveredValueIsRecent | crates/zhold-store/src/io/json_publish.rs:74-162 | after a crash at any instant of any chain of writes, across earlier power losses too, the document reads back as a written generation at least as new as the last one reported durable |
| ArenaManifests.EqualRevisionMeansEqualManifest | crates/zhold-store/src/manifest/arena_manifest.rs:186-244 | a rewrite either changes nothing or grows the revision, so an unchanged revision means an unchanged manifest |
| ArenaManifests.RevisionGrowsExactlyBelowTheLimit | crates/zhold-store/src/manifest/arena_manifest.rs:212-233 | a changing rewrite grows the revision if and only if the counter is not at its end |
| ArenaManifests.SaturatedRevisionHidesABuild | crates/zhold-store/src/manifest/arena_manifest.rs:186-205 | at the last revision a begun build carries the same revision as before |
| ArenaManifests.LifecycleChangesOnlyByItsOwnOperations | crates/zhold-store/src/manifest/arena_lifecycle.rs:17-71 | builds begin only by begin, end only by finish or recovery, and never begin while unfinished |
| ArenaManifests.ExitCodesNeedASpawnedBuild | crates/zhold-store/src/manifest/arena_lifecycle.rs:25-51 | a success or failure code is recorded only for a build that was marked spawned |
| ArenaManifests.RecoverySucceedsExactlyWhenCoherent | crates/zhold-store/src/store/recovery.rs:31-43 | recovery of an unfinished manifest is refused if and only if the manifest is recorded finalized without a finish; otherwise the outcome is the one its stage dictates |
| ArenaManifests.CoherenceIsKept | crates/zhold-store/src/manifest/arena_lifecycle.rs:52-63 | no rewrite ever records a manifest as finalized without a finish |
| ArenaManifests.RevisionNeverComesBack | crates/zhold-store/src/manifest/arena_manifest.rs:186-244 | over any number of rewrites an equal revision means an equal manifest |
| ArenaManifests.ABegunBuildOutdatesEveryJournal | crates/zhold-store/src/manifest/arena_manifest.rs:186-205 | a begun build is reserved and unfinished, keeps its pin, forgets every intent, and whatever happens later never matches a journal written before it |
| ArenaManifests.AnObservedSizeDoesNotShow | crates/zhold-store/src/manifest/arena_manifest.rs:207-210 | an observed size shows neither in the revision nor in lifecycle, pin or journals, so it is only safe in a rewrite that grows the revision |
| ArenaManifests.ArenaManifest.Transition | crates/zhold-store/src/manifest/arena_lifecycle.rs:82-98 | refuses any stage but the expected one without changing anything |
| ArenaManifests.ArenaManifest.Finish | crates/zhold-store/src/manifest/arena_lifecycle.rs:25-64 | refuses a disallowed pair of stage and outcome without changing anything, else finalizes and gives the reservation back |
| ArenaManifests.ArenaManifest.SetPin | crates/zhold-store/src/manifest/arena_manifest.rs:212-220 | the pin is the one asked for, an unpin has no expiry, nothing else changes, and the arena is pinned at exactly the times before the expiry |
| ArenaManifests.PinIsWhatWasAsked | crates/zhold-store/src/manifest/arena_manifest.rs:212-220 | an unchanged pin changes nothing; any other pin or unpin stores exactly what was asked for under the next revision |
| ArenaManifests.BeginByFields | crates/zhold-store/src/manifest/arena_manifest.rs:186-210 | a build begins exactly on a finished manifest, and what it writes, field by field |
| ArenaManifests.MarksByFields | crates/zhold-store/src/manifest/arena_lifecycle.rs:17-23 | each spawn mark advances exactly the stage before it, and nothing else |
| ArenaManifests.FinishByFields | crates/zhold-store/src/manifest/arena_lifecycle.rs:25-64 | which outcome each stage can end with, and what the end writes; a missing measurement keeps the last known size |
| ArenaManifests.RecoveryByFields | crates/zhold-store/src/manifest/arena_lifecycle.rs:73-80 | recovery is a finish as never started for a reserved build and as terminated for any other |
| ArenaManifests.IntentsByFields | crates/zhold-store/src/manifest/arena_manifest.rs:229-244 | intents are written and cleared alone, and only the named one is cleared |
| ArenaManifests.StageByFields | crates/zhold-store/src/manifest/arena_lifecycle.rs:66-109 | the stage is the recorded one, or follows from the timestamps; finished means recorded so and not started since |
| ArenaManifests.AnIntentMatchesUntilTheNextChange | crates/zhold-store/src/manifest/arena_manifest.rs:229-233 | an intent matches the journal of its own revision until the manifest next changes, and never again after that |
| ArenaManifests.ArenaManifest.ClearRetirement | crates/zhold-store/src/manifest/arena_manifest.rs:235-244 | clears exactly the named intent and reports whether it did |
| ArenaProtocolProof.StepIsSafe | crates/zhold-store/src/collection/collector.rs:157-253 | every step of every process keeps the documents sound, its own claims true, and everything other processes rely on through the locks they hold |
| ArenaProtocolProof.RelyKeepsProc | crates/zhold-store/src/store/service.rs:162-175 | what a process learned under its locks stays true under the steps of all others |
| ArenaProtocolProof.StoreIsSafe | crates/zhold-store/src/store/lifecycle.rs:17-32 | a read-modify-write of the manifest under its metadata lock is safe in all three outcomes of the write |
| ArenaProtocolProof.IntentIsSafe | crates/zhold-store/src/collection/collector.rs:210-215 | a new intent coincides with no journal and no retired tree |
| ArenaProtocolProof.MoveIsSafe | crates/zhold-store/src/collection/collector.rs:230-233 | the rename to trash takes an unpinned, finished, journalled arena and no other, in collection and in resumption |
| ArenaProtocolTheorems.RunKeepsInv | crates/zhold-store/src/collection/reconcile.rs:81-131 | the invariant holds in every state of every interleaving, with deaths anywhere, also inside recovery, and with stale confirmations |
| ArenaProtocolLive.AliveTreeIsNeverRetiredNorLeased | crates/zhold-store/src/store/admission.rs:59-61 | while a Cargo tree may be alive, in a run whose confirmations are current, its arena stays in place and unfinished, is not in trash, and no process gains a lease on it |
| ArenaProtocolLive.LiveTreesAreProtectedExactlyByCurrentConfirmations | crates/zhold-store/src/store/recovery.rs:15-49 | over every run, trees that may be alive have their arena in place and recorded unfinished in every state if and only if no recovery is stored while a tree is alive |
| ArenaProtocolRuns.AStaleConfirmationFreesALiveArena | crates/zhold-store/src/store/recovery.rs:15-49 | there is a run in which a stale confirmation lets an arena be leased while its old tree is alive |
| ArenaProtocolTheorems.RecoveryIsNeverRefused | crates/zhold-store/src/store/recovery.rs:31-43 | in no run does recovery meet an unfinished manifest that it has to refuse |
| ArenaProtocolTheorems.PinKeepsArenaInPlace | crates/zhold-store/src/collection/trash.rs:117-137 | a pin that returned Ok keeps its arena in place and out of trash until it expires or another pin operation is stored, also against a retirement interrupted before it and resumed after it |
| ArenaProtocolTheorems.UnpinFreesTheArena | crates/zhold-cli/src/command/pin.rs:20-20 | after an unpin that returned Ok, while the arena stays in place and no other pin operation is stored, it is pinned at no time |
| ArenaProtocolTheorems.OnlyPinsChangePins | crates/zhold-store/src/store/service.rs:162-175 | no step of any process but the store of a pin operation changes the pin of an arena that stays in place |
| ArenaProtocolTheorems.NoIntentIsOverwritten | crates/zhold-store/src/collection/collector.rs:181-215 | over every run a new intent is only written over a finished, unpinned manifest without one |
| ArenaProtocolTheorems.RetiredTreeIsTheJournalledArena | crates/zhold-store/src/collection/collector.rs:210-246 | every tree in trash has a journal with its nonce, was renamed while its manifest carried that nonce and revision, and belongs to no arena in place |
| ArenaProtocolTheorems.BothDirectoriesNeverMatch | crates/zhold-store/src/collection/reconcile.rs:103-112 | the error case of an original and a trash directory that both match one journal is unreachable |
| ArenaProtocolTheorems.TreeComesFromRename | crates/zhold-store/src/collection/trash.rs:69-75 | a tree in trash that was not there before was just renamed from the matching arena; all others are unchanged but for their deletion |
| ArenaProtocolTheorems.LeaseFootprint | crates/zhold-store/src/store/admission.rs:39-85 | a lease is only gained by admission on a new arena or by a begun manifest |
| ArenaProtocolRuns.ABuildCanFinish | crates/zhold-cli/src/command/cargo.rs:130-175 | there is a run in which a Cargo tree is alive and its build then finishes |
| ArenaProtocolRuns.ARetirementSurvivesItsCollector | crates/zhold-store/src/collection/reconcile.rs:100-102 | there are runs in which the collector dies after the rename and in which another process completes the deletion |
| ArenaProtocolAlone.APassIsARun | crates/zhold-store/src/collection/reconcile.rs:25-79 | from every state that a run reaches, a process left to itself can carry out a whole reconciliation pass, with exactly the outcome of the pass function |
| ArenaProtocolAlone.AJournalCanBeReconciled | crates/zhold-store/src/collection/reconcile.rs:81-118 | so can it handle one journal, with the outcome of the case analysis |
| ArenaProtocolAlone.AnyPinCanBeStored | crates/zhold-store/src/store/service.rs:162-175 | from every such state any pin and any unpin can be stored, with exactly what was asked for |
| ArenaProtocolAlone.ARetirementCanRun | crates/zhold-store/src/collection/collector.rs:157-253 | from every such state a finished arena without an intent whose pin has run out, if it has one, can be retired completely |
| Reconcile.TrashStore.ReconcileLocked | crates/zhold-store/src/collection/reconcile.rs:25-79 | the journals are taken in path order and the store ends as the pass function says; the reported repairs are exactly the surviving arenas whose manifest changed, each not leased and rid of its intent |
| Reconcile.TrashStore.ReconcileOne | crates/zhold-store/src/collection/reconcile.rs:81-118 | each of the four combinations of original and trash has the outcome and the effect of the case analysis |
| Reconcile.TrashStore.Resume | crates/zhold-store/src/collection/trash.rs:45-79 | an arena that no longer matches its journal, or is leased, is left alone; a matching one is gone with its tree and journal |
| Reconcile.TrashStore.Delete | crates/zhold-store/src/collection/trash.rs:81-107 | the tree goes before its journal, or both stay while the arena is leased |
| Reconcile.TrashStore.RepairOrphanedIntents | crates/zhold-store/src/collection/reconcile.rs:133-179 | exactly the intents without a journal and without a lease are cleared, by the next revision of a manifest that is otherwise the same; every other manifest stays, and the report names exactly the cleared ones |
| Reconcile.TrashStore.JournalPaths | crates/zhold-store/src/collection/reconcile.rs:215-226 | every journal once, in ascending order |
| Reconcile.TrashStore.RemoveTree | crates/zhold-store/src/collection/trash.rs:104-105 | the recursive deletion ends with exactly that tree gone |
| ReconcileTheorems.PassInClosedForm | crates/zhold-store/src/collection/reconcile.rs:38-54 | the loop over the journals equals one closed description of the store, independent of how far it got |
| ReconcileTheorems.WhatAPassLeaves | crates/zhold-store/src/collection/reconcile.rs:25-79 | whatever leases are held: which journals, trees and arenas are left; an arena that is not leased and whose intent has no journal left is rid of it by its next revision, and every other arena is as it was |
| ReconcileTheorems.RepairByFields | crates/zhold-store/src/collection/reconcile.rs:133-179 | the repair of intents, arena by arena and field by field |
| ReconcileTheorems.ResumableByFields | crates/zhold-store/src/collection/trash.rs:117-137 | a retirement is resumed exactly for an arena in place and not leased, with this intent at the journal's revision and no tree in trash |
| ReconcileTheorems.WhatAQuietPassLeaves | crates/zhold-store/src/collection/reconcile.rs:25-79 | while no lease is held no journalled tree is left, and every journal left has a changed arena |
| ReconcileTheorems.LeftJournalsHaveTheirArena | crates/zhold-store/src/collection/reconcile.rs:97-99 | every journal left has its arena leased, or in place and changed, if and only if none was stranded |
| ReconcileTheorems.PassIsIdempotentExactlyWhenNothingIsStranded | crates/zhold-store/src/collection/reconcile.rs:25-79 | a second pass changes nothing if and only if no journal was stranded before the first |
| ReconcileTheorems.SecondPass | crates/zhold-store/src/collection/reconcile.rs:91-96 | a second pass only drops the journals whose arena is gone |
| ReconcileTheorems.TwoPassesSettle | crates/zhold-store/src/collection/reconcile.rs:25-79 | a third pass never changes anything |
| ReconcileRuns.StoresOfRunsAreReachable | crates/zhold-store/src/collection/reconcile.rs:103-131 | every store made of states that runs reach, with nonces drawn once, meets the assumptions of the theorems about the pass |
| ReconcileRuns.AStrandedJournalNeedsASecondPass | crates/zhold-store/src/collection/reconcile.rs:224-226 | on a store that runs reach, the first pass leaves a journal with neither arena nor tree, and the second pass differs |
| Initialization.ArenaStore.StageArena | crates/zhold-store/src/store/admission.rs:104-118 | the journal precedes the staging directory, and every instant is sound |
| Initialization.ArenaStore.LeaseNew | crates/zhold-store/src/store/admission.rs:87-162 | success leaves a whole unfinished arena with the new initialization id, the measured size, the reservation and nothing staged; failure at any call leaves all other arenas alone and every instant sound |
| Initialization.ArenaStore.LeaseExisting | crates/zhold-store/src/store/admission.rs:39-85 | an unfinished arena is refused and left alone; otherwise the begun manifest is in place |
| Initialization.ArenaStore.LeaseReservedLocked | crates/zhold-store/src/store/admission.rs:21-37 | recovery comes first, so success leaves no journal and no staging, a begun arena with the measured size and reservation, and all other arenas as they were; without faults only an unfinished arena is refused |
| Initialization.ArenaStore.DropReserved | crates/zhold-store/src/store/arena_lease.rs:260-300 | dropping a reserved lease before promotion leaves its staged manifest finished as never started unless the write fails, and touches nothing else |
| Initialization.ArenaStore.DropPromoted | crates/zhold-store/src/store/arena_lease.rs:260-300 | dropping it after promotion leaves its manifest in place finished as never started unless the write fails, and touches nothing else |
| Initialization.ArenaStore.ReconcileStaged | crates/zhold-store/src/collection/initialization.rs:69-107 | a staged manifest is finished as never started, with its bytes as measured or last known, and promoted; staging without a manifest is deleted, and the journal goes last |
| Initialization.ArenaStore.ReconcileRecord | crates/zhold-store/src/collection/initialization.rs:39-67 | each combination of staging and final directory ends with neither staging nor journal; both directories at once is unreachable |
| Initialization.ArenaStore.ValidateFinal | crates/zhold-store/src/collection/initialization.rs:109-119 | an arena in place under a journal always carries the journal's initialization id |
| Initialization.ArenaStore.ReconcileInitializations | crates/zhold-store/src/collection/initialization.rs:23-37 | from every sound crash point recovery succeeds unless a call fails, leaves no journal and no staging, keeps every arena, and adds exactly the staged ones, whole and never started |
| Initialization.RetirementKeepsSound | crates/zhold-store/src/collection/collector.rs:230-233 | retirement of an arena keeps every crash point sound |
| Initialization.RewriteKeepsSound | crates/zhold-store/src/manifest/arena_manifest.rs:171-184 | so does every rewrite of a manifest in place |
| ByteSizes.SaturatingSumIsClampedSum | crates/zhold-core/src/bytes/byte_size.rs:26-28 | a saturating fold is the true sum, clamped once |
| ByteSizes.BudgetComparisonIsExact | crates/zhold-store/src/collection/collector.rs:127-134 | the saturated comparison is the true one exactly when it holds of the sums or the budget is the largest value |
| ByteSizes.PercentIsAShare | crates/zhold-core/src/bytes/byte_size.rs:36-42 | a percentage from 1 to 100 is exact and never above the whole |
| Accounting.ChargeNeverRises | crates/zhold-store/src/manifest/arena_lifecycle.rs:52-63 | without an admission no step raises an arena's size plus reservation |
| Accounting.AdmissionCovers | crates/zhold-store/src/store/admission.rs:39-85 | an admission measures the tree, so the bytes are covered and certain whatever the manifest said before |
| Accounting.BytesStayCoveredUnlessUnmeasured | crates/zhold-store/src/store/finalization.rs:43-52 | a step keeps the bytes within the charge if and only if it is not an unmeasured end of a build that grew |
| Accounting.AnUnmeasuredEndBreaksTheBudget | crates/zhold-store/src/store/finalization.rs:43-52 | a run with one unmeasured end whose next admission is confirmed and whose bytes then reach twice the budget |
| Accounting.CoverageHoldsExactlyWithoutLostGrowth | crates/zhold-store/src/store/service.rs:139-160 | over every run of admissions, promotions, builds and retirements, every arena's bytes are within its charge throughout if and only if no build ends unmeasured after growing past its last known size |
| Accounting.BudgetHoldsUntilTheNextAdmission | crates/zhold-store/src/store/service.rs:139-160 | in every run that loses no growth, from any point at which the charges are within the budget, they and the bytes stay within it until the next admission |
| Accounting.BudgetStore.ReadEntry | crates/zhold-store/src/inventory/arena_snapshot.rs:166-251 | the entry is that of the manifest as first read, certain exactly when it has a durable size and no intent, and then never understates its arena although the lock is probed later; an unreadable arena is uncertain and adds at most its reservation |
| Accounting.BudgetStore.ReadSnapshot | crates/zhold-store/src/inventory/arena_snapshot.rs:34-107 | read one arena at a time beside finishing builds, a certain snapshot lies between the charges of all arenas at its end and at its start, and it is certain if every arena was, and readable |
| Accounting.BudgetStore.ConfirmBudget | crates/zhold-store/src/collection/collector.rs:102-134 | the answer is exactly the comparison of true sums over certain entries; yes means that bytes plus reservations are within the budget now, and it is yes if all arenas were readable, certain and within the budget before |
| Accounting.BudgetStore.AdmitWithin | crates/zhold-cli/src/command/cargo.rs:98-114 | the answer is yes exactly when the lease was granted, every arena read is certain and what was read is within the budget; then bytes and reservations of all arenas are within it and nothing was admitted since; a refused lease changes nothing |
| Accounting.BudgetStore.Admit | crates/zhold-store/src/store/admission.rs:21-85 | refuses exactly unfinished or locked arenas; otherwise the arena is charged its measured bytes and the reservation |
| Retention.RemovalPlan | crates/zhold-store/src/history/prune.rs:67-106 | the planned positions are exactly the first k for the cut k, for every combination of bounds |
| Retention.CutFrom | crates/zhold-store/src/history/prune.rs:67-106 | the cut is the least k whose removal leaves at most keep receipts, none older than the cutoff, and at most max_bytes or one receipt |
| Retention.TooManyOrTooOld | crates/zhold-store/src/history/prune.rs:73-86 | the first two loops remove a prefix, no shorter one would do |
| Retention.TooLarge | crates/zhold-store/src/history/prune.rs:87-105 | the last loop extends it only while bytes are over the bound and more than one receipt is left |
| Retention.RemainingBytes | crates/zhold-store/src/history/prune.rs:87-93 | the bytes of exactly the receipts that stay |
| Retention.RetainedIsBoundedAndYoungest | crates/zhold-store/src/history/prune.rs:24-65 | what retention keeps is within all bounds, no removed receipt is younger, by time and then identifier, than a kept one, and with any of the last removed ones back a bound would be exceeded |
| HistoryDisk.RemovalMakesACleanIndexOverCount | crates/zhold-store/src/history/prune.rs:47-57 | a removal makes an exact clean index over-count by one |
| HistoryDisk.EveryImageCountsExactly | crates/zhold-store/src/history/index.rs:95-115 | no crash image under-counts if and only if every possible index counts all receipts that may come back |
| HistoryDisk.CrashesCountExactlyAfterTidyRebuilds | crates/zhold-store/src/history/index.rs:117-132 | over every history of writers, deaths and power losses, no crash image under-counts if and only if no index is rebuilt while a removal is unsynced |
| HistoryDisk.TidyHistoryCountsLive | crates/zhold-store/src/history/index.rs:95-115 | after a history with any deaths and power losses whose rebuilds met no unsynced removal, the index does not under-count the receipts there are |
| HistoryDisk.DeathsNeverUnderCount | crates/zhold-store/src/history/writer.rs:31-60 | over every history without power loss the index never under-counts the receipts there are |
| HistoryDisk.AnUnsyncedRemovalComesBack | crates/zhold-store/src/history/prune.rs:47-57 | a history in which a removal comes back and a later publication fits by its index while a receipt too many is there |
| History.HistoryStore.CreateReceipt | crates/zhold-store/src/io/json_create.rs:60-74 | a receipt is created only under a durable dirty mark, and a confirmed creation syncs its directory |
| History.HistoryStore.SyncReceipts | crates/zhold-store/src/history/prune.rs:130-137 | after the sync no removal is pending |
| History.HistoryStore.Rebuild | crates/zhold-store/src/history/index.rs:117-132 | the published totals are exactly those of the receipts that processes see |
| History.HistoryStore.ReadOrRebuild | crates/zhold-store/src/history/index.rs:95-115 | on success the stored index is clean and is the one returned; it counts the receipts if it did before |
| History.HistoryStore.BeginPublication | crates/zhold-store/src/history/index.rs:56-61 | on success the index is dirty, durably, before anything is added, and the one it replaces counts the receipts if it did before |
| History.HistoryStore.PruneLocked | crates/zhold-store/src/history/prune.rs:24-65 | success leaves exactly the retained receipts and an exact clean index, published after the sync; its first step is a removal under the old index; a dry run changes nothing |
| History.HistoryStore.PublishTotals | crates/zhold-store/src/history/prune.rs:53-57 | totals computed by subtraction equal those of the receipts left |
| History.HistoryStore.Persist | crates/zhold-store/src/history/writer.rs:31-86 | without a warning, unless the index under-counted before, and in particular after every tidy history, the receipts are those a scan and prune after every receipt would keep, so at most max_receipts and at most max_bytes or one; a clean index that fits with the new receipt spares the prune, and one that does not forces it; a failure before the receipt was added removes nothing; without faults and name clashes there is no warning; the receipt id is reported exactly when the receipt was kept |
| Planner.PlanCollection | crates/zhold-core/src/policy/planner.rs:27-110 | the folds, the sort and the greedy loop produce the plan defined by true sums and the least sufficient prefix; a bad watermark is the error |
| Planner.BudgetIsMetExactly | crates/zhold-core/src/policy/planner.rs:36-108 | the plan meets the budget if and only if no size is untrusted and protected bytes plus reservation are within it |
| Planner.BudgetIsMetForAnySums | crates/zhold-core/src/policy/planner.rs:36-108 | for all sums and budgets the decision weighs the clamped total without the candidates and the reservation |
| Planner.DecisionIsWrongExactlyUnderSaturation | crates/zhold-core/src/policy/planner.rs:36-108 | for trusted sizes it is wrong if and only if the budget lies between what saturation leaves and what is truly left |
| Planner.SaturatedTotalHidesAnOverrun | crates/zhold-core/src/policy/planner.rs:36-38 | beyond 64-bit sums it can claim a budget that protected bytes alone exceed |
| Planner.EvictionIsShortestPrefix | crates/zhold-core/src/policy/planner.rs:70-98 | evicted and spared are the unprotected trusted arenas, no spared one is due before an evicted one, no eviction was needless, and only exhaustion stops short of the target |
| Planner.PlannedArenas | crates/zhold-core/src/policy/planner.rs:42-76 | a record is evicted or spared exactly when it is inactive, not pinned and its size fresh or cached, as often as it is listed; the bytes of all others are protected |
| Planner.PlannedOrder | crates/zhold-core/src/policy/planner.rs:77-98 | evictions go by missing worktree, failed build, last use, larger size and identity, and each names its size and reason |
| Planner.PlannedBytes | crates/zhold-core/src/policy/planner.rs:36-108 | before, target, projected and reclaimable bytes; nothing is evicted when everything fits, none too many otherwise, and the budget is met only with every size known |
| Planner.ProtectionByFields | crates/zhold-core/src/model/arena.rs:102-114 | who is protected and who is a candidate, by liveness, pin and size quality |
| Planner.NothingIsLostInThePlan | crates/zhold-core/src/policy/planner.rs:84-108 | projected plus evicted bytes equals before |
| Planner.PlanIgnoresOrder | crates/zhold-core/src/policy/planner.rs:70-82 | records with distinct ids give the same plan in any order |
| Planner.ProtectedAndCandidates | crates/zhold-core/src/policy/planner.rs:42-76 | the two filters split the bytes without overlap or gap |
| Sorting.SortIgnoresOrder | crates/zhold-core/src/policy/planner.rs:77-82 | with a key that tells elements apart, sorting forgets the order of its input |
| Sorting.SortSorts | crates/zhold-store/src/history/prune.rs:30-30 | the result is sorted and a permutation |
| Worktree.LeaseNeverMeetsRemoval | crates/zhold-store/src/worktree/admission.rs:12-31 | in every reachable state a live lease's worktree has no record or a ready one |
| Worktree.OneLiveRecordPerPath | crates/zhold-store/src/worktree/registry.rs:56-95 | at most one record that is not removed claims a path, so the error of several live records cannot occur |
| Worktree.RegistryLockFreezesRecords | crates/zhold-store/src/worktree/hooks.rs:23-27 | nobody else writes a record while a process holds the registry lock |
| Worktree.RecordsFollowTheLifecycle | crates/zhold-store/src/worktree/transitions.rs:14-136 | every change of a record over any run is a lawful next version with the next revision, made while no build holds that worktree |
| Worktree.DecisionIsLawful | crates/zhold-store/src/worktree/transitions.rs:68-136 | no hook revives a removed record except by registration, drains one that is not live, or removes one that is not draining, for whichever hook and record |
| Worktree.ConfirmRemovedExactly | crates/zhold-store/src/worktree/transitions.rs:91-136 | confirm-removed records the removal exactly when there is a draining record whose path is absent, and what it writes |
| Worktree.PrepareRemoveExactly | crates/zhold-store/src/worktree/transitions.rs:68-89 | prepare-remove drains exactly a ready record, or gives a draining one another manager, and what it writes |
| Worktree.CancelRemoveExactly | crates/zhold-store/src/worktree/hooks.rs:85-113 | cancel-remove readies exactly a draining record, or gives a ready one another manager, and what it writes |
| Worktree.MakeReadyExactly | crates/zhold-store/src/worktree/transitions.rs:14-66 | registration writes a new, revived or changed record exactly when it differs, is refused while draining, and which head and metadata it writes |
| Worktree.RemovedOnlyWhenAbsent | crates/zhold-store/src/worktree/transitions.rs:112-128 | over every run a record becomes removed only if its path was absent when the process that writes it decided on it, with the record still as it was found |
| Worktree.WritingWasDecided | crates/zhold-store/src/worktree/transitions.rs:199-228 | over every run whoever is about to write a version decided on exactly that version before |
| Worktree.AdmissionExactly | crates/zhold-store/src/worktree/admission.rs:12-31 | a build is admitted exactly when its worktree has no record or a ready one |
| Worktree.RegistrationExactly | crates/zhold-store/src/worktree/registry.rs:79-95 | a registration goes on exactly when every other record of its path is removed |
| Worktree.HooksAreIdempotent | crates/zhold-store/src/worktree/transitions.rs:199-228 | a hook that changed a record reports it as already current when repeated |
| Worktree.CancelUndoesPrepare | crates/zhold-store/src/worktree/hooks.rs:85-113 | cancel-remove gives back the registration that prepare-remove drained, but for revision and time |
| Worktree.WriteKeepsOneLive | crates/zhold-store/src/worktree/registry.rs:79-95 | a write after the alias check, or from a live record, keeps one live record per path |
| WorktreeRuns.AWorktreeCanBeBuiltInAndRemoved | crates/zhold-store/src/worktree/hooks.rs:14-82 | there are runs that build in a registered worktree and runs that drain and remove it |
| Locks.RunsExclude | crates/zhold-store/src/lock/file_lock.rs:30-54 | a lock that two processes hold is a gate that both hold in shared mode; no two processes ever hold a lock in conflicting modes |
| Locks.BlockingFollowsTheOrder | crates/zhold-store/src/store/service.rs:162-175 | every blocking acquisition holds only locks of lower rank |
| LockTables.ArenaTableAgrees | crates/zhold-store/src/collection/collector.rs:164-172 | over every run of the arena protocol each process holds and waits for exactly what the lock table says |
| LockTables.WorktreeTableAgrees | crates/zhold-store/src/worktree/hooks.rs:23-46 | so does each process of the worktree protocol, for registry and gates |
| LockTables.WaitingNeedsTheLock | crates/zhold-store/src/store/service.rs:162-175 | a step that waits for a lock is impossible while it is held |
| ArenaSimulation.RunsAreRunsOfTheLockModel | crates/zhold-store/src/store/service.rs:162-175 | over every run of the arena protocol each action is a path of its process in the lock model, and joins and deaths are the same there |
| ArenaLocks.RunsKeepLocksOwned | crates/zhold-store/src/lock/file_lock.rs:30-54 | a lock that is taken is held, over every run, by a process that exists and whose task holds it |
| ArenaLocks.NoArenaDeadlock | crates/zhold-store/src/store/service.rs:162-175 | in every reachable state of the arena protocol whoever is blocked waits, directly or through others, for a process that has a step |
| WorktreeLocks.RunsAreRunsOfTheLockModel | crates/zhold-store/src/worktree/hooks.rs:14-113 | over every run of the worktree protocol each action is at most one move of its process in the lock model |
| WorktreeLocks.NoWorktreeDeadlock | crates/zhold-store/src/worktree/hooks.rs:14-113 | in every reachable state of the worktree protocol whoever is blocked waits, directly or through others, for a process that has a step |
| Locks.BlockedWaitsForSomeoneWhoCanStep | crates/zhold-store/src/store/service.rs:162-175 | whoever is blocked waits, directly or through others, for a process that can go on |
| Locks.NoSetIsDeadlocked | crates/zhold-store/src/worktree/hooks.rs:14-113 | in every set with a waiting process some member waits for nobody in the set |
| Includes.Loader.MergeFile | crates/zhold-store/src/context/config_loader.rs:109-152 | the recursion terminates, restores its stack, and gathers or fails as the specification function says |
| Includes.Loader.MergeIncludes | crates/zhold-store/src/context/config_loader.rs:143-145 | the includes are merged in order up to the first error |
| Includes.LoadsExactlyWithoutCycles | crates/zhold-store/src/context/config_loader.rs:109-152 | a load succeeds if and only if every reachable file is good and no include cycle is reachable; a missing file loads exactly when it is optional |
| Includes.LoadedWalks | crates/zhold-store/src/context/config_loader.rs:119-131 | after a successful load no walk along includes repeats a file or meets the stack |
| Includes.FailureShowsCycle | crates/zhold-store/src/context/config_loader.rs:119-131 | a failure among good files exhibits a cycle or a walk back into the stack, and reports exactly that chain |
| Includes.FailureNamesItsCause | crates/zhold-store/src/context/config_loader.rs:109-170 | every error is explained by a walk of includes that ends at its cause: the repeated file, the unreadable or malformed one, the unusable rustc, or the include that does not resolve |
| Includes.ChosenProgram | crates/zhold-store/src/context/config_loader.rs:142-170 | the chosen rustc is that of the last file, includes first, that sets one; files are hashed in order of entry |
| Includes.UnfoldingIsUnique | crates/zhold-store/src/context/config_loader.rs:190-208 | the tree of includes, and so the choice, is determined by the files |

## Left out

- The file system itself: permissions, symbolic links, containment checks, secure opening and flock are assumed to work; inspections of real files do not fail, which also carves out the early return at crates/zhold-store/src/io/json_publish.rs:140, where a failing inspection after the commit reports an error for a durable value.
- A failed directory sync is modelled as leaving its operations pending; a failed rename, link or removal of a name as having no effect.
- `read_optional_json` without a lock makes two separate existence checks and can answer None during a rotation; only `read_json` is claimed for unlocked readers.
- `remove_json` is modelled for journals, which have no backups.
- Power loss for arena and trash renames: they are not all followed by directory syncs, so arenas, trash and initialization are modelled under process death only. Documents and history receipts are modelled under power loss too.
- Corruption of documents by third parties, beyond an initial torn primary with a valid backup.
- Lease and collector objects: `ArenaLease`, `retire` and `recover_suspect` are states of one transition system, because their promises are about interleavings; `finish_observed`, `leave_suspect` and `Drop` are its lease steps.
- ArenaProtocolLive.AliveTreeIsNeverRetiredNorLeased: holds in runs whose confirmations are current; `recover_suspect` cannot tell a stale one, see `LiveTreesAreProtectedExactlyByCurrentConfirmations`.
- ArenaProtocolTheorems.RunKeepsInv: rewrites start below the last revision; see `SaturatedRevisionHidesABuild`.
- ArenaProtocolTheorems.PinKeepsArenaInPlace: the clock does not run backwards.
- After a stale confirmation the model does not tell the old tree from a new build's: the exit of the newer one clears both.
- The lock simulations take each protocol on its own; the gate a build holds is a lease in one and a shared lock in the other.
- The protocol follows one arena identity; the planner's choice of victims and the recheck of an orphaned worktree are nondeterministic there, which only adds runs.
- ReconcileTheorems.WhatAPassLeaves: the pass is fault free; interrupted passes are runs of the arena protocol. Sizes, reports and dry runs of reconciliation are not modelled.
- Accounting.BudgetHoldsUntilTheNextAdmission: each build grows within its reservation and no growth is lost; see `AnUnmeasuredEndBreaksTheBudget` for the other case. A rejected admission may leave a small empty arena.
- Accounting.BudgetStore.ConfirmBudget: says nothing about true sums when the budget is the largest 64-bit value, because the saturated comparison is then always true.
- History.HistoryStore.Persist: receipt counts and bytes fit in 64 bits; receipts that fail validation are counted by nobody and not modelled.
- HistoryDisk.CrashesCountExactlyAfterTidyRebuilds: assumes the directory sync of Unix; where `sync_receipt_directory` does nothing no removal is ever certainly synced.
- Planner.BudgetIsMetExactly: sums fit in 64 bits and the budget is below the largest value.
- Worktree keys and paths are unique by derivation; metadata validation, summaries and hook receipts are not modelled.
- The quota, reservation, configuration and store initialization locks, which are held alone around one document.
- Liveness of retirement journals whose arena was pinned, leased again or recreated: they may stay.
- Includes.LoadsExactlyWithoutCycles: environment variables, command-line overrides, discovery of the first files, TOML itself and the hash function are not modelled; the fingerprint is the sequence of files hashed.
- Process supervision, signals, quota providers, Git and Cargo context resolution, CLI parsing, rendering, doctor, scan, selectors and size or duration parsing.
