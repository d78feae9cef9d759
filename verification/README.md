# A verified model of codex-autopilot's gates

Autopilot runs a plan of tasks with workers, judges their work by department leads, and
merges accepted work into the project.  These Dafny modules model the parts of it that
decide what may happen, and prove what they promise over every input and every run.

* **Side-effect gate** (`Manifests`, `ArtifactClasses`, `Storage`, `StorageReading`,
  `Places`, `PathLookup`, `Links`, `LinkMeaning`, `Entries`, `Trees`, `Rollback`,
  `CleanUp`, `ProjectTree`, `Promotions`, `PromotionPairs`, `LinkCases`, `RollbackLoss`,
  `Staging`, `StagingStore`, `StagingRuns`, `Landing`, `Lifecycle`, `Freshness`,
  `OutsideGuard`, `CompletionGate`, `GateRuns`).  A task works in a copy of the project;
  the copy is sealed as a proposal, the proposal is accepted, and only then merged, with a
  drift check, a snapshot, an apply that may fail anywhere and a rollback.  Each store
  call runs under one exclusive lock and is one step of a state machine; the other steps
  are the worker's edits and writes to the project from outside.  A tree is its files, its
  set of directories, and what lies around it: its place, and the files, links and
  directories outside.  Links on the way to a path are followed wherever the source
  follows them.
* **Scheduling order** (`PlanGraph`).  Kahn's algorithm with a priority by declaration.
* **Rubric history** (`Rubrics`, `RubricHistory`, `RubricWriters`, `ProjectMemory`).
  Versions 1..n of a department's rubric, their writers, their reader and the repair of a
  broken history.
* **Department leads** (`Departments`, `DepartmentMeaning`, `DepartmentValidator`,
  `LeadStability`).  Deriving the department of a task, validating a plan so that this
  works, and what admitted plan changes keep.
* **Second leads** (`SecondLeads`, `SecondLeadRuns`, `SecondLeadIds`).  Every N-th first
  verdict of a department is measured by a second lead.
* **Fresh hires** (`Grants`, `GrantEffects`, `GrantRuns`, `HireStacks`, `HiringLadder`).
  A runtime patch on the acceptance path buys one more hire, which goes when the patch
  goes.
* **Execpolicy block** (`Lines`, `ExecPolicy`, `ManagedBlock`, `RuleReading`).  The
  managed block that the installer writes into the Codex rules and the uninstaller takes
  out.

Objects that the source updates in place are classes, and each of their methods is proved
equal to a transition function on values; the properties are proved about those functions
and about runs of them.  Further laws say what the calls mean without following their
steps: exactly when one succeeds, what it changes, and what stays.  `Collections`,
`Ordering`, `Strings`, `Arithmetic` and `Wrappers` hold the small facts that several
modules share.  `dafny verify dfyconfig.toml` checks everything.

## Where the code does less than its documentation says

* A proposal that replaces a file by a directory cannot be rolled back after some
  failures: the directory is in the way of the saved file.  Unless a changed path lies
  below a link while a staged link leads out, rollback is exact for every failure exactly
  when the apply gets to no such replacement (`Promotions.RollbackExactlyWithoutSwap`;
  `Promotions.SwapDefeatsRollback` is the case).
* The rollback does not check for links above the paths it restores, as the apply does.
  If a changed path lies below a link that the proposal itself turned, it can remove
  another file and report success (`RollbackLoss.RollbackThroughLinkLosesAFile`); with no
  changed path below a link this cannot happen (`Rollback.ExactRollback`).
* After a proposal with a file replaced by a directory was promoted, repeating the
  promotion is refused as drift, since the old path is now a directory
  (`CompletionGate.RetryAfterPromotion`, `CompletionGate.SwapIsRefusedOnRetry`).
* A proposal that replaces a directory by a file is refused as drift even in an unchanged
  project, and so is one that replaces a link to a directory by a directory with a file of
  a name found there: the drift check looks through links (`Promotions.UndriftedExactly`,
  `Promotions.DirectoryReplacedIsRefused`, `LinkCases.LinkedDirectoryIsRefused`).
* Promotions of disjoint proposals need not commute: a staged link can depend on a link
  that the other one installs, and a file that the other one adds can show at a changed
  path through a link.  They commute exactly when neither happens in the other order
  (`PromotionPairs.PromotionsCommute`, `LinkCases.OrderOfLinksMatters`,
  `LinkCases.OrderOfSightMatters`).
* Task ids may contain a dot, but the walk over promoted tasks takes dotted names for
  copies set aside.  Promotions of such tasks make no other copy stale, and copies are
  always current exactly when no id has a dot (`Freshness.FreshExactlyWithoutDots`,
  `Freshness.DottedPromotionUnnoticed`).
* A cancelled task is not final: a plan change resets it if it depends on what changed,
  under the lead it had.  One lead per profession is kept exactly when each reset task
  names the lead of its profession (`LeadStability.ReopeningKeepsExactly`,
  `LeadStability.ReopeningSplitsAProfession`).
* Repeating the runtime's rubric write returns the reference of the latest version, so it
  is the one first returned exactly if no version was stored since
  (`RubricHistory.RepeatedRuntimeWrite`, `RubricHistory.LaterWriteNamesLaterVersion`).
* Stacked hires of a task are all undone exactly when their patches are taken back newest
  first; in any other order the tally keeps a hire although all are revoked
  (`HireStacks.RestoredExactlyNewestFirst`, `HireStacks.OldestFirstKeepsAHire`).
* A strip takes a registered block out exactly when each of its rules holds
  `codex-autopilot`; a rule without it is left by that strip and by every later one
  (`ManagedBlock.StripUndoesRegister`, `ManagedBlock.StripTwice`,
  `ManagedBlock.UntaggedRuleStays`).

## Model

| member | source | states |
|---|---|---|
| `PlanGraph.TopologicalOrder` | src/codex_autopilot/plan_graph.py:6-30 | The loop returns the greedy order, which is a dependency order of exactly the declared tasks; it reports an unknown dependency exactly when one is undeclared, and a cycle exactly when one exists. |
| `PlanGraph.IndexTables` | src/codex_autopilot/plan_graph.py:9-10 | The two tables give every task its declaration rank and its number of listed dependencies, repeated ones counted. |
| `PlanGraph.DependentsTable` | src/codex_autopilot/plan_graph.py:11-14 | Every task is listed under a dependency as often as it names it; an undeclared dependency stops the loop. |
| `PlanGraph.Release` | src/codex_autopilot/plan_graph.py:20-27 | Taking a task off keeps `ready` exactly the available tasks in declaration order, and `indegree` exactly what each task still waits for. |
| `PlanGraph.GreedyIsLeast` | src/codex_autopilot/plan_graph.py:19-30 | The returned order is lexicographically least by declaration rank among all dependency orders of the plan. |
| `PlanGraph.DeclarationOrderKept` | src/codex_autopilot/plan_graph.py:9-30 | A declaration order that already respects the dependencies comes back unchanged. |
| `PlanGraph.StuckMeansCycle` | src/codex_autopilot/plan_graph.py:19-30 | When nothing is available before all tasks are out, the rest contains a dependency cycle, which is constructed. |
| `PlanGraph.CycleExcludesOrder` | src/codex_autopilot/plan_graph.py:28-30 | A plan that has a dependency order has no cycle. |
| `PlanGraph.TopologicalIsDistinct` | src/codex_autopilot/plan_graph.py:28-30 | A dependency order names every declared task exactly once. |
| `Manifests.DiffManifests` | src/codex_autopilot/artifact_staging.py:1081-1103 | The loop computes the difference of two manifests. |
| `Manifests.DiffDescribes` | src/codex_autopilot/artifact_staging.py:1088-1102 | Each change records both sides of its path, with the operation that fits them. |
| `Manifests.DiffLabels` | src/codex_autopilot/artifact_staging.py:1093-1102 | Each change carries the class of its path, and as its version the digest it brings or, after `deleted:`, the one it takes away. |
| `Manifests.DiffIsInOrder` | src/codex_autopilot/artifact_staging.py:1081-1103 | The change list is strictly sorted by path and names exactly the paths that differ. |
| `Manifests.DiffIsEmpty` | src/codex_autopilot/artifact_staging.py:1081-1103 | There is nothing to change exactly when the manifests are equal. |
| `Manifests.ApplyDiff` | src/codex_autopilot/artifact_staging.py:1081-1103 | Applying the difference of two manifests to the first gives the second, for all manifests. |
| `ArtifactClasses.SuffixIsExtension` | src/codex_autopilot/artifact_staging.py:1106-1112 | The suffix of a path is what follows the last dot of its name, with the dot, in small letters, wherever the file lies. |
| `ArtifactClasses.ClassIsOfExtension` | src/codex_autopilot/artifact_staging.py:1106-1112 | Two paths whose extensions differ in case only have the same class. |
| `ArtifactClasses.ClassWithExtension` | src/codex_autopilot/artifact_staging.py:1106-1112 | A path is code exactly when its extension is one of the code suffixes, and a generated asset exactly when it is one of theirs and not of code. |
| `ArtifactClasses.ClassWithoutExtension` | src/codex_autopilot/artifact_staging.py:1106-1112 | A name without a dot, or whose last dot leads it or ends it, is a plain file. |
| `Storage.EntryRoundTrip` | src/codex_autopilot/artifact_staging.py:145-181 | An entry read back from storage is the entry written, exactly when it is a well-formed one. |
| `Storage.ChangeRoundTrip` | src/codex_autopilot/artifact_staging.py:185-246 | A change survives storage exactly when its path, sides, operation, artifact class and version fit together. |
| `Storage.ChangesRoundTrip` | src/codex_autopilot/artifact_staging.py:1131-1144 | A change list survives storage exactly when it is strictly sorted and each change survives. |
| `Storage.DiffSurvivesStorage` | src/codex_autopilot/artifact_staging.py:1131-1144 | The difference of two manifests of real trees always survives storage. |
| `Storage.ReadIsSound` | src/codex_autopilot/artifact_staging.py:1131-1144 | Whatever was stored, a list that is read without error is sorted and consistent. |
| `Storage.ManifestPathKept` | src/codex_autopilot/artifact_staging.py:1212-1219 | A path that a manifest can hold is its own normal form. |
| `StorageReading.EntryReadsExactly` | src/codex_autopilot/artifact_staging.py:161-181 | An object reads as an entry exactly when it has no other fields, its kind, digest and mode are those of the entry, and a target is there exactly for a symlink. |
| `StorageReading.PathRefusedExactly` | src/codex_autopilot/artifact_staging.py:1212-1219 | A path is refused exactly when it is empty, absolute, `.`, has a component `..` or holds a NUL. |
| `StorageReading.PathReadsAs` | src/codex_autopilot/artifact_staging.py:1212-1219 | Any other path reads as its components without empty ones and dots, in order, which is its own normal form; with none left it reads as `.`. |
| `StorageReading.ChangeReadsExactly` | src/codex_autopilot/artifact_staging.py:203-246 | An object reads as a change exactly when it has the six fields and they are those of the change, whose sides fit its operation. |
| `StorageReading.ListReadsExactly` | src/codex_autopilot/artifact_staging.py:1131-1144 | A stored value reads as a change list exactly when it is an array of changes, strictly sorted by path. |
| `PathLookup.ObservedPlain` | src/codex_autopilot/artifact_staging.py:1074-1078 | What is seen at a path is what the tree holds there, whenever no link stands above it. |
| `PathLookup.ObservedSame` | src/codex_autopilot/artifact_staging.py:1074-1078 | What is seen at a path, through whatever links, depends only on the paths of the project that the lookup passes. |
| `Entries.RemoveIsPlain` | src/codex_autopilot/artifact_staging.py:1184-1188 | With no link above it, removing a path touches that path alone. |
| `Entries.InstallIsPlain` | src/codex_autopilot/artifact_staging.py:1156-1174 | With no link above it, installing makes exactly the missing parents and puts the entry at the path, or stops with the parents already made. |
| `Entries.InstallKeepsForm` | src/codex_autopilot/artifact_staging.py:1156-1174 | Through whatever links, installing leaves a tree: no path is both file and directory, and nothing hangs in the air. |
| `LinkMeaning.LinkIsFollowed` | src/codex_autopilot/artifact_staging.py:811-813 | Where a name on the way is a link, the rest is followed from where that link leads: from the top if its target is absolute, from the directory it lies in otherwise. |
| `LinkMeaning.WalkMeans` | src/codex_autopilot/artifact_staging.py:811-813 | The walk of a link target ends exactly where its names lead, one name at a time with each link replaced by its target; it finds a loop exactly if they lead nowhere. |
| `LinkMeaning.AllowedExactly` | src/codex_autopilot/artifact_staging.py:806-818 | A staged link at any depth is allowed exactly when its target is relative and, followed from the directory the link lies in, ends in the project or at its root. |
| `LinkMeaning.AllowedWithoutLinks` | src/codex_autopilot/artifact_staging.py:806-818 | With no link on the way, that is when folding the components of the target over the directory of the staged link, names appended and `..` dropping the last, ends at or below the root. |
| `LinkMeaning.FoundFromTheTop` | src/codex_autopilot/artifact_staging.py:1074-1078 | The absolute path of the project leads to it, and what follows is found as from inside. |
| `LinkMeaning.ObservedMeans` | src/codex_autopilot/artifact_staging.py:1074-1078 | What is seen at a path is what lies under its last name in the directory that the names before it lead to, links replaced by their targets, and nothing if they lead to none. |
| `CleanUp.CleanOneExactly` | src/codex_autopilot/artifact_staging.py:853-858 | An empty directory is taken away exactly if it is one itself; the turn fails exactly if a link stands for an empty directory; otherwise nothing happens. |
| `CleanUp.CleaningKeepsFiles` | src/codex_autopilot/artifact_staging.py:846-858 | Through whatever links, the directory loop of a rollback touches no file and no link and only takes directories away. |
| `ProjectTrees.ProjectTree.RemoveEntry` | src/codex_autopilot/artifact_staging.py:1184-1188 | The file or link that the path leads to goes, also through a linked parent; a directory there makes the call fail. |
| `ProjectTrees.ProjectTree.InstallEntry` | src/codex_autopilot/artifact_staging.py:1156-1174 | Links to directories among the parents are followed, missing parents are made, and the entry replaces what is there; the call fails at a directory, a parent that is a file or a dangling link, or the disk, with the parents already made left behind. |
| `ProjectTrees.ProjectTree.ApplyChanges` | src/codex_autopilot/artifact_staging.py:793-819 | The loop over the tree in place does what `ApplyAll` says, also when it fails half way: at a linked parent, an absolute link, a link that leads out of the project, a directory, or the disk. |
| `ProjectTrees.ProjectTree.CheckDrift` | src/codex_autopilot/artifact_staging.py:748-754 | Drift is reported exactly when what is seen at some changed path, links above it followed, is not its baseline. |
| `ProjectTrees.ProjectTree.WriteSnapshot` | src/codex_autopilot/artifact_staging.py:756-791 | The snapshot holds what is seen at every changed path, and the parents that are directories or lead to one. |
| `ProjectTrees.ProjectTree.RestoreEntries` | src/codex_autopilot/artifact_staging.py:830-840 | The first loop puts back, or removes, whatever each changed path leads to at its turn, and stops at the first failure. |
| `ProjectTrees.ProjectTree.RemoveEmptyParents` | src/codex_autopilot/artifact_staging.py:841-858 | The second loop over the sorted parents does what `CleanAll` says: empty new directories go, deepest first, and a link to an empty directory makes it fail. |
| `ProjectTrees.ProjectTree.RestoreSnapshot` | src/codex_autopilot/artifact_staging.py:821-858 | The whole rollback over the tree in place does what `Restore` says. |
| `Rollback.EmptyMeansRemovable` | src/codex_autopilot/artifact_staging.py:841-858 | In deepest-first order a directory is empty at its turn exactly if everything below it could go as well. |
| `Trees.DriftIsPlain` | src/codex_autopilot/artifact_staging.py:748-754 | Where no link stands above a path, there is no drift exactly when the path is no directory and holds its baseline. |
| `Trees.ApplyTouches` | src/codex_autopilot/artifact_staging.py:793-819 | However an apply ends, only changed paths and the directories above installed ones are different. |
| `Trees.ApplySucceeds` | src/codex_autopilot/artifact_staging.py:793-819 | An undisturbed apply completes exactly when every change can be placed in the final tree and every staged link stays inside the project as it is at its turn; it then leaves the old files overlaid with the changes. |
| `Trees.ApplyWrites` | src/codex_autopilot/artifact_staging.py:793-819 | Whatever the workspace holds by then, a completed apply leaves at each changed path nothing, the staged link, or the content of the file there with the staged mode; without such a file it does not complete. |
| `Rollback.RestoreIsPlain` | src/codex_autopilot/artifact_staging.py:821-858 | With no link above a changed path and none that the snapshot brings back there, the rollback is a matter of the changed paths and their parents alone. |
| `Rollback.RestoreKeepsForm` | src/codex_autopilot/artifact_staging.py:821-858 | Through whatever links, a rollback leaves a tree, also when it raises. |
| `Rollback.ExactRollback` | src/codex_autopilot/artifact_staging.py:821-858 | For every interrupted apply of changes of which none lies below a link, the rollback gives back exactly the earlier tree if and only if no changed path has become a directory; otherwise it raises. |
| `Rollback.RollbackWithoutNesting` | src/codex_autopilot/artifact_staging.py:756-858 | If no changed path lies above another or below a link, every interrupted apply is rolled back exactly. |
| `Rollback.RollbackIsExactOrRaises` | src/codex_autopilot/artifact_staging.py:821-858 | Even with a second failure during such a rollback, success is reported only for exactly the earlier tree. |
| `RollbackLoss.RollbackThroughLinkLosesAFile` | src/codex_autopilot/artifact_staging.py:821-840 | Without that condition: a concrete proposal, refused for an absolute link, whose rollback goes through a link, removes an unchanged file and reports success, although no replacement of a file by a directory is reached. |
| `Promotions.RollbackExactlyWithoutSwap` | src/codex_autopilot/artifact_staging.py:793-858 | A proposal that changes nothing below a link, or whose own links all stay inside, can be rolled back after every possible failure exactly when its apply gets to no replacement of a file or link by a directory. |
| `Promotions.SwapDefeatsRollback` | src/codex_autopilot/artifact_staging.py:821-858 | A concrete proposal, file `a` into directory `a`, with a failure that cannot be rolled back. |
| `Promotions.UndriftedExactly` | src/codex_autopilot/artifact_staging.py:748-754 | In the tree a task was staged from, the drift check refuses exactly when a changed path is a directory there, or is seen through a link that stands where its parent must be. |
| `LinkCases.LinkedDirectoryIsRefused` | src/codex_autopilot/artifact_staging.py:748-754 | For every tree with a link to a directory: replacing the link by a directory with a file of a name that is visible through it is refused in an unchanged project. |
| `Promotions.UndriftedPromotionCompletes` | src/codex_autopilot/artifact_staging.py:793-819 | In that tree an undisturbed promotion completes exactly when every staged link is relative and stays inside the project as it is at its turn, and leaves exactly the sealed manifest. |
| `Promotions.DirectoryReplacedIsRefused` | src/codex_autopilot/artifact_staging.py:748-754 | A concrete proposal, directory `a` into file `a`, that the drift check refuses in an unchanged project. |
| `Promotions.LandedIs` | src/codex_autopilot/artifact_staging.py:748-819 | When a promotion lands (no drift, every change placeable, every staged link inside at its turn), and the whole tree it leaves. |
| `Promotions.LandedAt` | src/codex_autopilot/artifact_staging.py:748-819 | Path by path, a landed promotion leaves sealed content where the proposal differs and the old content elsewhere. |
| `PromotionPairs.NoLostUpdate` | src/codex_autopilot/artifact_staging.py:748-754 | Of two proposals staged from one tree with no other writer, both land only if they change disjoint paths. |
| `PromotionPairs.PromotionsCommute` | src/codex_autopilot/artifact_staging.py:748-819 | If they land in one order, the other order leaves the same tree, directories included, exactly when in that order no changed path is seen through a link at its turn and the staged links stay inside the project; otherwise it stops. |
| `PromotionPairs.PromotionsApartCommute` | src/codex_autopilot/artifact_staging.py:748-819 | They commute whenever neither leads a staged link through a path that the other changes, nor sees a changed path through links by way of a path that the other changes or makes. |
| `LinkCases.OrderOfLinksMatters` | src/codex_autopilot/artifact_staging.py:806-818 | Two concrete proposals that land in one order only: a link to the project itself, and a link through it and up. |
| `LinkCases.OrderOfSightMatters` | src/codex_autopilot/artifact_staging.py:748-754 | Two concrete proposals of disjoint paths without any staged link that land in one order only: a new file in a directory, and a directory in place of a link to it. |
| `LinkCases.LinkOutIsRefused` | src/codex_autopilot/artifact_staging.py:812-818 | A link to `../x`, where no link is there, is refused wherever the project lies, except where that leads back into it. |
| `Links.WalkLooksOnly` | src/codex_autopilot/artifact_staging.py:812-812 | Among the paths of the project, where a link target leads depends only on the links it passes. |
| `StagingStore.ArtifactStagingStore.PromotedTaskIds` | src/codex_autopilot/artifact_staging.py:907-932 | The walk finds the promoted tasks, except those whose id has a dot. |
| `StagingStore.ArtifactStagingStore.PrepareTask` | src/codex_autopilot/artifact_staging.py:341-418 | Staging, reuse, setting a stale copy aside and every refusal, as the transition `Prepare`. |
| `StagingStore.ArtifactStagingStore.SealTask` | src/codex_autopilot/artifact_staging.py:427-457 | Freezing the workspace as the proposal, clearing an earlier acceptance, as the transition `Seal`. |
| `StagingStore.ArtifactStagingStore.AcceptTask` | src/codex_autopilot/artifact_staging.py:476-495 | Binding a verification to the sealed proposal, as the transition `MarkVerified`. |
| `StagingStore.ArtifactStagingStore.SendBackTask` | src/codex_autopilot/artifact_staging.py:459-474 | As the transition `MarkRevisionRequired`. |
| `StagingStore.ArtifactStagingStore.AbandonTask` | src/codex_autopilot/artifact_staging.py:629-642 | As the transition `Abandon`; a promoted task stays promoted. |
| `StagingStore.ArtifactStagingStore.CheckPromotion` | src/codex_autopilot/artifact_staging.py:515-546 | The refusals before anything is written, in their order. |
| `StagingStore.ArtifactStagingStore.PromoteTask` | src/codex_autopilot/artifact_staging.py:497-587 | The whole call, with snapshot, apply, rollback and the saved states, as the transition `Promote`. |
| `StagingStore.ArtifactStagingStore.UndoPromotion` | src/codex_autopilot/artifact_staging.py:555-574 | After a failed apply the record goes back to VERIFIED if the rollback worked and stays PROMOTING if not. |
| `StagingStore.ArtifactStagingStore.RunTransaction` | src/codex_autopilot/artifact_staging.py:547-587 | The transaction after the checks, as the transition `Transact`. |
| `StagingRuns.RunKeeps` | src/codex_autopilot/artifact_staging.py:341-642 | In every reachable state VERIFIED, PROMOTING and PROMOTED records carry a verification and a proposal that is the difference of baseline and sealed entries; unaccepted ones carry none. |
| `StagingRuns.NextKeeps` | src/codex_autopilot/artifact_staging.py:341-642 | Every step keeps that invariant, and PROMOTED is absorbing. |
| `Lifecycle.PrepareRefusesExactly` | src/codex_autopilot/artifact_staging.py:350-389 | Which calls of `prepare` are refused and why: an unsafe id, an empty argument, another run, a finished task, an untracked directory, a failed copy. |
| `Lifecycle.PrepareLeavesOthers` | src/codex_autopilot/artifact_staging.py:350-389 | `prepare` touches the task it names alone, never the project, and nothing at all if it is refused before a copy is due. |
| `Lifecycle.ReusedAsItWas` | src/codex_autopilot/artifact_staging.py:366-377 | A copy that knows every promotion is handed out again as the worker left it: no workspace and nothing set aside changes, and of the record only the token is added after the earlier ones. |
| `Lifecycle.OutdatedIsSetAside` | src/codex_autopilot/artifact_staging.py:363-365 | An outdated copy is moved away with its record, content and workspace as they were, marked abandoned, whether or not the new one can be made; the new one is the project as it is, with a fresh record. |
| `Lifecycle.FirstCopy` | src/codex_autopilot/artifact_staging.py:379-418 | A task without a copy gets one of the project as it is, or only an untracked directory if copying fails; nothing is set aside. |
| `Lifecycle.SealsExactly` | src/codex_autopilot/artifact_staging.py:427-457 | A copy can be sealed exactly from PREPARED, PROPOSED or REVISION_REQUIRED; the proposal is what the workspace holds and what differs from the baseline, and an earlier acceptance is gone. |
| `Lifecycle.AcceptsExactly` | src/codex_autopilot/artifact_staging.py:476-495 | A proposal can be accepted exactly when it is PROPOSED with a digest and the id is not empty; the record gets the id and nothing else changes. |
| `Lifecycle.SendsBackExactly` | src/codex_autopilot/artifact_staging.py:459-474 | A proposal can be sent back exactly when it is PROPOSED; baseline, proposal and workspace stay. |
| `Lifecycle.AbandonsExactly` | src/codex_autopilot/artifact_staging.py:629-642 | A record can be abandoned exactly when it is not PROMOTED, and keeps its content. |
| `Lifecycle.PromotesExactly` | src/codex_autopilot/artifact_staging.py:497-587 | If nothing goes wrong, an accepted record is promoted exactly when the caller expects its id or none, the workspace is what was sealed, nothing drifted, every change can be placed and every staged link is allowed at its turn. |
| `Lifecycle.UnacceptedIsRefused` | src/codex_autopilot/artifact_staging.py:515-518 | A record that is neither accepted nor promoted is refused, and nothing changes. |
| `Lifecycle.PromoteRefusesExactly` | src/codex_autopilot/artifact_staging.py:515-545 | Why the promotion of an accepted record is refused before anything is written: no id, another id, no proposal, a digest of something else, a workspace that is not what was sealed, or drift. |
| `Lifecycle.PromotionOutcomes` | src/codex_autopilot/artifact_staging.py:547-587 | Past the checks: the status and stage in which success, a failed snapshot, a crash, a rollback and a failed rollback leave the record, and the snapshot and id it notes. |
| `Lifecycle.PromotedAnswersExactly` | src/codex_autopilot/artifact_staging.py:589-627 | A promoted record is answered without a write, with its own promotion, exactly when the caller expects its id or none and all it changed is still there. |
| `Lifecycle.RolledBackCanBeRetried` | src/codex_autopilot/artifact_staging.py:557-574 | After an exact rollback another call does what it would have done at first. |
| `Lifecycle.StatusMoves` | src/codex_autopilot/artifact_staging.py:341-642 | Only the call meant for it gives a task another status, along the named transitions. |
| `Lifecycle.WorkIsNotLost` | src/codex_autopilot/artifact_staging.py:341-418 | In every run what a worker left in its workspace is still there, or was set aside as it was, unless the worker changed it. |
| `Lifecycle.AcceptedIsFrozen` | src/codex_autopilot/artifact_staging.py:476-642 | In every run a record once accepted keeps run, baseline, proposal, digest and verification id, in place or set aside; in place it stays accepted until it is abandoned. |
| `StagingRuns.PromotionLands` | src/codex_autopilot/artifact_staging.py:497-587 | A successful call leaves the old project overlaid with the sealed changes, identical elsewhere, and the record PROMOTED. |
| `StagingRuns.PromotionOfUndrifted` | src/codex_autopilot/artifact_staging.py:497-587 | If the project still was the baseline, it is now the sealed manifest. |
| `StagingRuns.RefusalChangesNothing` | src/codex_autopilot/artifact_staging.py:555-587 | A call that raises leaves the project as it was, or the record PROMOTING, unless it was rolled back while a changed path lay below a link. |
| `Landing.PromotionWritesSealed` | src/codex_autopilot/artifact_staging.py:515-587 | Completed, interrupted or half rolled back, a promotion writes only sealed content, unless it is rolled back while a changed path lies below a link. |
| `Landing.OnlyPromotionWrites` | src/codex_autopilot/artifact_staging.py:323-642 | No other call of the store changes the project. |
| `Landing.VerifiedIsWhatLands` | src/codex_autopilot/artifact_staging.py:427-546 | In every run, whatever a promotion writes was in the workspace when it was sealed, before that proposal was accepted, whatever the worker did since; only a rollback through a link can write anything else. |
| `Freshness.PlainRunsAreFresh` | src/codex_autopilot/artifact_staging.py:353-414 | In every run in which nothing but completed promotions changes the files of the project, and with dotless task ids, a workspace that `prepare` returns has the current project as its baseline. |
| `Freshness.DottedPromotionUnnoticed` | src/codex_autopilot/artifact_staging.py:907-932 | For any two safe ids of which one has a dot, a run in which `prepare` hands out an out-of-date copy. |
| `Freshness.FreshExactlyWithoutDots` | src/codex_autopilot/artifact_staging.py:907-975 | For any set of at least two safe ids: copies are always current exactly when no id has a dot. |
| `OutsideGuard.CanonicalOutsideManifest` | src/codex_autopilot/isolation_guard.py:107-132 | The loop returns, sorted, exactly the paths that differ from the baseline and that no promotion explains; a missing record or proposal is refused. |
| `OutsideGuard.NoFalseAlarm` | src/codex_autopilot/isolation_guard.py:107-132 | In every run a reported path was changed from outside since the task was staged, or by a promotion that did not complete or whose task id has a dot. |
| `OutsideGuard.ReportedExactly` | src/codex_autopilot/isolation_guard.py:107-132 | In every run with dotless ids, a path is reported after promotion exactly when it was changed that way, still differs from the baseline and lies in no unseen proposal. |
| `OutsideGuard.PromotedIsAnswered` | src/codex_autopilot/isolation_guard.py:125-131 | In every run the check finds all the proposals it reads for a promoted task. |
| `CompletionGate.CompletionArtifactGate.PromoteCompleted` | src/codex_autopilot/artifact_staging_lifecycle.py:109-180 | Accept if still proposed, promote under the stored id, and tell the session and the journal of a completed promotion only. |
| `CompletionGate.GateActsExactly` | src/codex_autopilot/artifact_staging_lifecycle.py:124-146 | A call accepts a PROPOSED record under the id it brings, goes on with an accepted or promoted one under its own id, and promotes under that id and no other; any other record is refused and nothing changes. |
| `CompletionGate.RetryAfterAccept` | src/codex_autopilot/artifact_staging_lifecycle.py:124-147 | A retry after a crash between the two calls does what the first call would have done, under the first verification id. |
| `CompletionGate.RetryAfterPromotion` | src/codex_autopilot/artifact_staging.py:589-627 | A retry after the promotion was saved writes nothing, and repeats the answer exactly when the proposal replaced no file by a directory. |
| `CompletionGate.CompletedIsNeverRepeated` | src/codex_autopilot/artifact_staging.py:509-514 | On a completed promotion the gate never writes, and answers or refuses by what the project holds. |
| `CompletionGate.UnfinishedIsRefused` | src/codex_autopilot/artifact_staging_lifecycle.py:124-147 | The gate refuses a promotion left PROMOTING, and nothing moves. |
| `CompletionGate.LandedExactly` | src/codex_autopilot/artifact_staging.py:611-616 | After landing, every changed path matches what was sealed exactly when no changed path lies above another. |
| `CompletionGate.ReadyLands` | src/codex_autopilot/artifact_staging_lifecycle.py:124-147 | An undisturbed call on a sealed proposal and an unchanged project completes exactly when the drift check finds nothing and every staged link stays inside the project. |
| `CompletionGate.SwapIsRefusedOnRetry` | src/codex_autopilot/artifact_staging.py:611-616 | A concrete proposal, file `a` into directory `a`, that lands and is refused when the call is repeated. |
| `GateRuns.ExactlyOnce` | src/codex_autopilot/artifact_staging_lifecycle.py:109-180 | Over every run of gate calls for any tasks, with crashes between the store calls, inside the transaction or before the report: each transaction completes at most once, under the first verification id offered, and the project is what those transactions make of it, unless one was left PROMOTING or rolled back through a link. |
| `GateRuns.CompletesOnce` | src/codex_autopilot/artifact_staging.py:509-514 | The tasks that complete in a run are, each once, exactly those promoted after it and not before. |
| `GateRuns.FirstIdCounts` | src/codex_autopilot/artifact_staging_lifecycle.py:124-147 | A record stays unaccepted until a call offers an id, and keeps the first one. |
| `GateRuns.ProjectIsWhatLanded` | src/codex_autopilot/artifact_staging.py:547-587 | The project after a run is what landing each completed proposal in order makes of the project before, if none was cut short or rolled back through a link. |
| `GateRuns.NothingAfterCompletion` | src/codex_autopilot/artifact_staging.py:509-514 | No run changes the record of a promoted task. |
| `ProjectMemory.ProjectMemory.StoredRubricVersions` | src/codex_autopilot/department_acceptance.py:620-661 | Succeeds exactly on a readable history, and returns the references of versions 1..n in order. |
| `ProjectMemory.ProjectMemory.StrayRubricRecords` | src/codex_autopilot/department_acceptance.py:681-710 | Returns each record outside the standing history, and nothing else, once. |
| `ProjectMemory.ProjectMemory.StoreDepartmentRubric` | src/codex_autopilot/department_acceptance.py:319-381 | Check then write under one lock, as the transition `StoreRubric`. |
| `ProjectMemory.ProjectMemory.WriteRuntimeRubric` | src/codex_autopilot/department_acceptance.py:384-418 | The first version, written only into an empty history, as the transition `WriteRuntime`. |
| `ProjectMemory.ProjectMemory.SupersedeRubricRecord` | src/codex_autopilot/department_gate.py:164-219 | A stray is retired; a record of the standing history is refused. |
| `Rubrics.ReadableExactlyWithoutStrays` | src/codex_autopilot/department_acceptance.py:620-710 | The reader succeeds exactly when the list of strays is empty. |
| `Rubrics.SupersedeRemovesOne` | src/codex_autopilot/department_gate.py:201-211 | Retiring a stray takes exactly that one off the list and leaves the first record of each of versions 1..n alone. |
| `Rubrics.RepairConverges` | src/codex_autopilot/department_gate.py:164-219 | Retiring strays in any order ends, after as many steps as there were strays and no sooner, in a readable history. |
| `RubricWriters.ReadableExactly` | src/codex_autopilot/department_acceptance.py:620-661 | A history can be read exactly when the verified records of the department are its versions 1..n, once each. |
| `RubricWriters.StoresExactly` | src/codex_autopilot/department_acceptance.py:358-381 | A proposal changes the memory exactly when it is version n+1 of a history 1..n with n at least 1 and the evidence is of an outcome; then it is appended as it is. |
| `RubricWriters.StoreRefusesExactly` | src/codex_autopilot/department_acceptance.py:358-381 | Why a proposal is refused: its version, an unreadable history, another text under a stored version, an empty history, a version skipped, no outcome evidence. |
| `RubricWriters.RuntimeWritesExactly` | src/codex_autopilot/department_acceptance.py:399-418 | The runtime changes the memory exactly when it writes version 1 of an empty history. |
| `RubricWriters.RetiresExactly` | src/codex_autopilot/department_gate.py:164-213 | A repair retires a record exactly when the on-call asks for it and it is a verified record of a rubric scope that is not the first of its version with all versions before it; nothing else changes. |
| `RubricWriters.EveryVersionHasItsWriter` | src/codex_autopilot/department_acceptance.py:319-418 | In every run each rubric added is version 1 written by the runtime into an empty history, or a later version proposed with outcome evidence on the history before it. |
| `RubricWriters.EveryRetirementIsARepair` | src/codex_autopilot/department_gate.py:164-213 | In every run each record retired was retired by the on-call when it did not stand. |
| `RubricHistory.StandingHistoryStays` | src/codex_autopilot/department_acceptance.py:358-418 | From any history, broken or not, and under any interleaving of the writers and the repair: no record of the standing history is changed or displaced, and the history never gets shorter. |
| `RubricHistory.HistoryOnlyGrows` | src/codex_autopilot/department_acceptance.py:358-418 | From a readable history it stays readable: versions are exactly 1..n, none changes, and n never shrinks. |
| `RubricHistory.RepeatedStore` | src/codex_autopilot/department_acceptance.py:319-381 | Repeating a store, however much later, returns the same reference and writes nothing. |
| `RubricHistory.RepeatedRuntimeWrite` | src/codex_autopilot/department_acceptance.py:384-418 | A repeated runtime write never writes and returns the reference of the current version: that of the first call exactly if no version was stored in between. |
| `RubricHistory.LaterWriteNamesLaterVersion` | src/codex_autopilot/department_acceptance.py:384-418 | A concrete run, version 1 written and version 2 stored, after which the repeated write returns the reference of version 2. |
| `RubricHistory.NothingToRepair` | src/codex_autopilot/department_gate.py:164-219 | On a readable history the repair changes nothing. |
| `DepartmentValidator.RoleLeadOf` | src/codex_autopilot/department_runtime.py:148-178 | The loop returns the one lead that open tasks of a profession name, or that its settled ones name when the rest names none, and its two refusals. |
| `DepartmentValidator.DepartmentFor` | src/codex_autopilot/department_runtime.py:213-241 | Declared entry first, then the one bound id, then the lead itself; several of either are refused. |
| `DepartmentValidator.DeriveTaskDepartment` | src/codex_autopilot/department_runtime.py:181-210 | The derivation with its refusals in order. |
| `DepartmentValidator.HistoryOf` | src/codex_autopilot/department_runtime.py:341-351 | Settled tasks count as history only with the lead that the current plan holds. |
| `DepartmentValidator.IsMoved` | src/codex_autopilot/department_runtime.py:386-407 | A profession with accepted work is moved when its one named lead neither accepted any of it nor is kept by the current plan. |
| `DepartmentValidator.ValidateDepartmentLeads` | src/codex_autopilot/department_runtime.py:254-338 | The three loops report every lead issue of the plan and nothing else; the list is empty exactly on a clean plan. |
| `Departments.CleanMeansDerivable` | src/codex_autopilot/department_runtime.py:181-338 | With no exempt tasks, the validator is silent exactly when every task names a lead and its department can be derived whichever tasks are settled. |
| `Departments.SettledDoesNotMatter` | src/codex_autopilot/department_runtime.py:148-210 | With one lead per profession, the derived department does not depend on what is settled. |
| `Departments.OneDepartmentPerProfession` | src/codex_autopilot/department_runtime.py:181-241 | In a clean plan all tasks of a profession derive one department, whose lead is a role of the plan and never the profession itself. |
| `DepartmentMeaning.DerivesExactly` | src/codex_autopilot/department_runtime.py:148-241 | The derived lead is the one a settled task names, else the only one named by tasks still to be accepted, else the only one settled tasks name; the id is that of the only declared entry of the lead, else the only one its tasks bind, else the lead itself; the task binds none or this one. |
| `DepartmentMeaning.RefusesExactly` | src/codex_autopilot/department_runtime.py:148-241 | When a derivation is refused, and why, in terms of tasks, entries, roles and bindings. |
| `DepartmentMeaning.DepartmentMeans` | src/codex_autopilot/department_runtime.py:213-241 | Which department a lead heads, and when several entries or several bindings leave that open. |
| `DepartmentMeaning.SplitExactly` | src/codex_autopilot/department_runtime.py:315-321 | A profession is split exactly when two of its tasks outside the history name different leads. |
| `DepartmentMeaning.MovedExactly` | src/codex_autopilot/department_runtime.py:341-408 | A profession is moved exactly when it has accepted work and the one lead its other tasks name neither accepted work of it nor leads what the plan in force has still to accept. |
| `DepartmentMeaning.EachTaskIsSorted` | src/codex_autopilot/department_runtime.py:283-314 | A task outside the exempt ones is reported as without a lead, under its own profession, or under no role of the plan, in exactly these cases. |
| `DepartmentMeaning.UnderivableExactly` | src/codex_autopilot/department_runtime.py:323-338 | A task is reported as underivable exactly when no earlier class speaks of it or its profession and the derivation from what is settled is refused. |
| `LeadStability.ReopeningKeepsExactly` | src/codex_autopilot/resilience.py:225-266 | An admitted change keeps one lead per profession exactly when every cancelled task that it resets names the lead of the rest of its profession. |
| `LeadStability.RunLedExactly` | src/codex_autopilot/resilience.py:225-266 | A run keeps one lead per profession throughout exactly when that holds of each of its changes. |
| `LeadStability.ReopeningSplitsAProfession` | src/codex_autopilot/resilience.py:225-266 | A family of runs of admitted plans in which a change resets a cancelled task and two leads accept work of one profession. |
| `LeadStability.AcceptedLeadIsKept` | src/codex_autopilot/department_runtime.py:354-408 | Over every run of admitted plans whose changes reset cancelled tasks only under the lead of their profession: once a task of a profession is VERIFIED, every later plan names its lead for each open task of the profession, and `role_lead` returns it. |
| `LeadStability.LeadsAreReal` | src/codex_autopilot/department_runtime.py:411-418 | In such runs every task is led by a role of the plan, of another profession, and never by the generic worker of old plans, by id or by name in any capitalisation. |
| `LeadStability.OneLeadAccepts` | src/codex_autopilot/department_runtime.py:354-408 | In every such run all accepted work of a profession was accepted by one lead. |
| `LeadStability.AcceptedStays` | src/codex_autopilot/resilience.py:195-214 | An accepted task stays in the plan as it was accepted. |
| `LeadStability.ChangeKeeps` | src/codex_autopilot/plan_admission.py:226-247 | A plan change that the validator admits keeps every task led, and one lead for what is open or accepted in a profession. |
| `SecondLeads.LeadAudit.AwaitingSecondLead` | src/codex_autopilot/department_audit.py:211-217 | The latest session of the task whose verdict waits, if any. |
| `SecondLeads.LeadAudit.Gate` | src/codex_autopilot/department_audit.py:259-312 | Compare and apply the first verdict, hold a selected one back and reopen the task, or pass it on, as the function `Gated`. |
| `SecondLeads.LeadAudit.DisagreementRate` | src/codex_autopilot/department_audit.py:240-256 | Counts the compared sessions of a department, with a pending one, and those that disagreed, which are never more. |
| `SecondLeadRuns.SecondLeadEveryNth` | src/codex_autopilot/department_audit.py:291-312 | In every run with fixed departments, after k first verdicts of a department exactly k div N second leads were requested, none when N is not positive; no task awaits two. |
| `SecondLeadRuns.FirstVerdictsApply` | src/codex_autopilot/department_audit.py:271-290 | The verdicts acted on are the first leads' alone: each one that is not waiting once, as it was given, whatever the second lead said. |
| `SecondLeadRuns.EachComparisonIsOneSecondLead` | src/codex_autopilot/department_audit.py:240-290 | Comparisons and second verdicts of a department are equally many, no more than the requests and no fewer than the disagreements. |
| `SecondLeadIds.SecondVerdict` | src/codex_autopilot/department_audit.py:271-290 | A verdict on a task whose first verdict is held back is set beside it, with its own id and whether they agree; the first verdict is applied under the id it came with, and no other session changes. |
| `SecondLeadIds.FirstVerdict` | src/codex_autopilot/department_audit.py:291-312 | Any other verdict is held back, with its id and its number, exactly if it is an N-th one of its department, and otherwise applied at once under the id it came with. |
| `SecondLeadIds.AppliedUnderItsOwnId` | src/codex_autopilot/department_audit.py:271-312 | In every run a verdict is acted on under the verification id offered with it for that very session. |
| `SecondLeadIds.JudgedOnce` | src/codex_autopilot/department_audit.py:271-312 | In every run a session is judged once, so that id is one id. |
| `SecondLeadIds.ComparedUnderBothIds` | src/codex_autopilot/department_audit.py:274-279 | In every run a comparison carries the first lead's own verdict and id, and the id its second lead offered. |
| `SecondLeadIds.CountedExactly` | src/codex_autopilot/department_audit.py:240-256 | In every run the comparisons of a department are the verdicts on its tasks that had a second lead, and its disagreements those that the second lead contradicted. |
| `SecondLeadIds.HeldAreTheNths` | src/codex_autopilot/department_audit.py:294-306 | In every run the verdicts held back have different multiples of N as their numbers, none above the count of their department. |
| `HiringLadder.HiringLadder.FreshPatches` | src/codex_autopilot/engineer_stop_actions.py:110-139 | The live patches of the ticket that touch the acceptance path and ground no earlier return. |
| `HiringLadder.HiringLadder.GrantFreshHire` | src/codex_autopilot/revision_budget.py:131-173 | Records the tally before and after the grant, and changes nothing else. |
| `HiringLadder.HiringLadder.ReturnStoppedTask` | src/codex_autopilot/engineer_stop_actions.py:163-230 | As the function `Returned`; a refusal changes nothing. |
| `HiringLadder.HiringLadder.RevokeGrants` | src/codex_autopilot/ladder_grants.py:150-241 | The nested loops do what `Revoked` says, and return the tasks blocked again in order. |
| `HiringLadder.HiringLadder.TakeBackPatch` | src/codex_autopilot/engineer_stop_actions.py:504-551 | A staged patch is withdrawn, an installed one marked for revert, and its hire revoked in the same step; any other patch is refused. |
| `Grants.GrantGivesABudget` | src/codex_autopilot/revision_budget.py:143-199 | At the top of the ladder a grant raises the tally and leaves between one and `maximum` more revisions. |
| `Grants.RevokingAgainDoesNothing` | src/codex_autopilot/ladder_grants.py:172-241 | Revoking for the same patches again changes nothing. |
| `GrantEffects.ReturnRefusesExactly` | src/codex_autopilot/engineer_stop_actions.py:172-190 | A return is refused exactly for a task that is not BLOCKED, and at the top of the ladder without a patch of the ticket that is staged or installed, changes the acceptance path and grounded no return before. |
| `GrantEffects.ReturnSends` | src/codex_autopilot/engineer_stop_actions.py:191-225 | A returned task is READY exactly when it has no revisions and IMPLEMENTED exactly when it has; the ticket records that, no other task moves, and below the top nothing else changes. |
| `GrantEffects.ReturnBuys` | src/codex_autopilot/engineer_stop_actions.py:179-192 | At the top all unspent patches of the ticket are spent on one hire, and the tally rises to the least that leaves the task a revision. |
| `GrantEffects.RevocationMeans` | src/codex_autopilot/ladder_grants.py:172-241 | A revocation blocks a task again exactly when a return of it loses its grounds, it is in the plan, not at work, and still where the return sent it; a task without such a return keeps its hires. |
| `GrantEffects.TakeBackStops` | src/codex_autopilot/engineer_stop_actions.py:504-551 | In every run taking back a patch blocks a task again exactly when a return of it hangs on the patch and the task stands, not started, where it was sent. |
| `GrantRuns.PatchBuysOneHire` | src/codex_autopilot/engineer_stop_actions.py:133-211 | Across all tickets of every run no patch is the ground of two returns. |
| `GrantRuns.HireGoesWithItsPatch` | src/codex_autopilot/ladder_grants.py:55-58 | In every run a hire that was bought is revoked or still has a staged or installed patch under it. |
| `GrantRuns.TakeBackUndoesItsHire` | src/codex_autopilot/ladder_grants.py:172-211 | Taking back a patch revokes exactly the one hire that hangs on it: the tally goes back if it has not moved since, a task not started is blocked again, all else stays. |
| `GrantRuns.TakeBackWithoutHire` | src/codex_autopilot/ladder_grants.py:172-188 | A patch that no hire hangs on goes without any effect on tallies, states and tickets. |
| `GrantRuns.ReturnRoundTrip` | src/codex_autopilot/engineer_stop_actions.py:176-211 | A return bought with one patch and taken back with it before the task starts leaves every tally and state as before. |
| `GrantRuns.OrderOfTakingBack` | src/codex_autopilot/ladder_grants.py:189-196 | Two stacked hires are both undone when taken back newest first; oldest first, the older hire is kept. |
| `HireStacks.OneTakenBack` | src/codex_autopilot/ladder_grants.py:189-193 | Taking back the patch of a hire puts the tally back exactly if it is still the one the hire left. |
| `HireStacks.RestoredExactlyNewestFirst` | src/codex_autopilot/ladder_grants.py:189-196 | For any chain of hires of a task and any order of taking all their patches back: the first tally comes back exactly newest first. |
| `HireStacks.HiresStack` | src/codex_autopilot/engineer_stop_actions.py:174-211 | For any task and two patches, a run from no tickets in which two hires are stacked, each on its patch; the first patch is installed before the task works on. |
| `HireStacks.OldestFirstKeepsAHire` | src/codex_autopilot/ladder_grants.py:189-196 | At the end of that run newest first leaves no hire in the tally and oldest first leaves one. |
| `ExecPolicy.StripManaged` | src/codex_autopilot/execpolicy.py:47-61 | The loop keeps exactly the lines outside managed blocks, in order, without empty lines at the end. |
| `ExecPolicy.RulesFile.Remove` | src/codex_autopilot/execpolicy.py:64-86 | Rewrites or deletes the file exactly when it mentions a marker. |
| `ExecPolicy.BuildBlock` | scripts/register_execpolicy.py:47-51 | The marker and one rule per command, joined. |
| `ExecPolicy.RulesFile.Register` | scripts/register_execpolicy.py:54-61 | Writes what was left after stripping, an empty line and the block. |
| `ManagedBlock.StripUndoesRegister` | scripts/register_execpolicy.py:54-61 | Stripping what was registered gives what stripping gave before, exactly when every written rule holds the tag `codex-autopilot`. |
| `ManagedBlock.TagIsWritten` | scripts/register_execpolicy.py:50-50 | A script path that holds the tag writes it into each rule, through `repr`, whatever else the path holds. |
| `ManagedBlock.LastRegistrationCounts` | scripts/register_execpolicy.py:54-61 | For such a path, registering again, for the same or another script, leaves only the last block. |
| `ManagedBlock.RemoveUndoesRegister` | src/codex_autopilot/execpolicy.py:64-86 | For such a path, removal after registration leaves the foreign rules, and no file where there were none. |
| `ManagedBlock.NothingManagedIsLeft` | src/codex_autopilot/execpolicy.py:47-86 | No line of a file after removal is a marker, and every line was there before. |
| `ManagedBlock.StripTwice` | src/codex_autopilot/execpolicy.py:47-61 | What one strip leaves, every later strip leaves. |
| `ManagedBlock.EarlierBlockGoes` | src/codex_autopilot/execpolicy.py:47-61 | A block that an earlier version wrote under its own marker is stripped as well, with rules of a tagged path. |
| `RuleReading.LiteralRoundTrip` | scripts/register_execpolicy.py:50-50 | Whatever the string, a reader of Python string literals reads it back from what `repr` wrote, and stops where the literal ends. |
| `RuleReading.PlainLiteral` | scripts/register_execpolicy.py:50-50 | ASCII text without a backslash is written as it is, between single quotes if it holds none, and between double quotes if it holds single ones only. |
| `RuleReading.RuleRoundTrip` | scripts/register_execpolicy.py:50-50 | A written rule reads as allowing this script this command, in this order. |
| `RuleReading.RegistrationAllows` | scripts/register_execpolicy.py:47-61 | After a registration the file allows what its lines outside managed blocks allowed, and the script each listed command, in order; nothing else. |
| `ManagedBlock.UntaggedRuleStays` | scripts/register_execpolicy.py:47-61 | A concrete family: a path and a command without a hyphen are written into a rule that no strip takes out. |
| `Lines.SplitJoined` | src/codex_autopilot/execpolicy.py:51-61 | Splitting joined lines gives the lines back, whatever text follows. |
| `Lines.SplitAtEnd` | src/codex_autopilot/execpolicy.py:51-51 | A line ends at its line end, be it a newline, a carriage return, both together or another break, and the next line starts after it. |

## Left out

Side-effect gate:

- The worker editing its workspace while a promotion reads it: every store call is one step, as its lock makes it towards other store calls.
- The two ignore lists of the copy and of the manifest walk, which differ slightly: manifests hold tracked paths only.
- `Rollback.ExactRollback`: for changes of which none lies below a link. The rollback follows links as the source does, and can then lose a file; exactly which rollbacks through links are exact is not characterised.
- `Rollback.RollbackIsExactOrRaises`: the same.
- `Promotions.RollbackExactlyWithoutSwap`: open only where a changed path lies below a link and another staged link leads out of the project; `RollbackLoss.RollbackThroughLinkLosesAFile` is such a case.
- The limit of forty links that the operating system follows in one lookup, links in directories that manifests skip, and files that they skip in a directory found empty.
- The order in which `sorted` leaves directories of equal depth, which Python takes from a set of strings: here it is the order of the strings. Without links above changed paths it makes no difference.
- A loop of links makes a promotion fail, as it mostly does in Python 3.11 and 3.12: there a loop that a later `..` of the target steps out of is accepted, and later versions accept any.
- Paths with `..` or of another root: manifests do not hold them.
- `LinkMeaning.ObservedMeans`: for paths of proper component names, as manifests hold them; `CleanUp.CleanOneExactly` likewise.
- Recovery of a promotion cut short by a crash: the source offers none, the record stays PROMOTING and is refused by the gate. `prepare` may set it aside as stale, and `abandon` ends it; both are steps of the runs.
- Temporary names, fsync, permission details, modification times, the Git baseline of a workspace, checkpoints, missing workspace directories, and names already taken in the directory of copies set aside.
- Timestamps, wording of errors and reasons, trimming of ids; SHA-256 is an injective function, and content is known by its digest.
- Storage of whole manifests (each entry is covered), Python's `str()` of nested JSON values where a string is expected, and letter case outside ASCII in artifact classes.
- `task_requires_staging`, `resolve_canonical_project_root`, `record_outside_manifest` and `check_thread_roots`: which tasks are staged, and the tickets filed from a report.
- The task and session state around the completion gate: only what the gate records and journals.

Scheduling:

- `PlanGraph.TopologicalOrder`: plans are taken to have unique task ids, which plan admission checks before.

Rubric history:

- Parsing a rubric's JSON and the checks of outcome evidence: a record holds a rubric or not, and the evidence is a yes or no.
- Record ids are positions in the memory, and the order of creation is their order.

Department leads:

- Exemptions of migrated plans (`legacy_serial`), where the tasks keep what they had.
- `LeadStability.AcceptedLeadIsKept`: any cancelled tasks may be reset by a change, where the source resets those that depend on what changed; an accepted task has only accepted dependencies, which no change touches. All other restrictions on plan changes are dropped, so the result covers more changes than are admitted.
- Display names of departments, and comparing role names outside ASCII without regard to case.

Second leads:

- The task state machine beyond the step back to IMPLEMENTED, the rounding of the rate, journal entries, and the audit of lead threads that live on.
- Departments are fixed for a run; `Departments.OneDepartmentPerProfession` and `LeadStability.AcceptedLeadIsKept` say when they are.

Fresh hires:

- Whether a patch changes the acceptance path is a given set of patches: the comparison of syntax trees is not modelled.
- The folders of staged, installed, withdrawn and refused patches and of their reverts are one status per patch; a refused revert is a step after which the patch is live again.
- The checks on the ticket's kind, the engineer's thread and the means of a stop, filing tickets for blocked tasks, and journal entries.

Execpolicy block:

- Finding the rules file, and reading and writing it; whether it exists is part of the model.
- Python's table of printable characters beyond ASCII: a character there is written as it is unless it is a space or a line break.

Not modelled at all: the App Server client, hooks, the command line, dispatch and wake-ups, presentation, prompts, configuration and diagnosis, which are input and output or tables that a reading settles.
