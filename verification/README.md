# Verification of the Axterm application layer

Axterm is a terminal and SSH workbench. This project models the parts of its application layer that decide
something: graph checks, imports, protocols that continue across awaits, text windows, stream parsers and tree
copies. It proves properties of those models in Dafny 4.11. All of it is checked by

    dafny verify dfyconfig.toml

I/O, clocks, randomness and foreign engines appear as parameters, as steps that may fail, or as values that are
chosen freely. Repositories are maps and sequences with fresh ids; a transaction applies or does not.

## Layout

| files | what they model |
|---|---|
| `SuccessorGraph`, `HostPlans`, `HostPreview`, `HostCommit`, `HostImport`, `ConnectionChain` | ProxyJump planning of an SSH-config import: the preview's checker, the commit's checker, the order of creation, and the chain that a connection reads back |
| `ReferenceGraph`, `ConfigurationDocument`, `ConfigurationInspection`, `ConfigurationPreview`, `ConfigurationRun`, `ConfigurationRules`, `ConfigurationImport`, `ConfigurationSettings`, `ConfigurationWitnesses` | import of a configuration: inspection, preview, the rules of the repositories, and the worklists that create rows |
| `ReviewedCommands`, `CommandProgress`, `CommandAnswers`, `WorkTargets`, `AiService`, `AiWorkBudget` | reviewed commands of AI work runs: review, binding, approval, expiry, cancel, execution |
| `ConnectionLifecycle`, `ConnectionProgress`, `ConnectionService` | one managed SSH connection: hops, recovery, reconnect timer, cancel, close |
| `BatchScheduler`, `BatchProgress`, `BatchLeftovers`, `BatchAnswers`, `BatchOperationService` | batch operations: workers, targets, steps, cancel |
| `AiContext` | the text window a model is given, and the report on it |
| `DirectoryTracker`, `ShellMarkers` | OSC 633 directory markers, their codec, and shell quoting |
| `RemoteCopy`, `RemoteOperation`, `RemoteAnswers` | copying and moving trees on a remote file system, with budgets and cleanup |
| `SyncLock`, `SyncAnswers`, `DataSyncService` | the lock of a sync profile and its pending download preview |

Each protocol has two main files. One holds the steps as functions on values, the invariants, and theorems over every
sequence of steps, that is, over every interleaving. The other is the service's object with its fields: one method
for the code between two awaits, each proved to make exactly the step it stands for, and a method `Take` (or
`Advance`) for an arbitrary next step. A step function is therefore the meaning of a method, and its properties are
the theorems: what is never allowed to happen; in the `Progress` files, what does happen; and in the `Answers` files,
what the stored rows then tell. The last are said of field values and of the steps taken, without the step functions.

## Results that differ from what one might expect

* **Names of saved hosts.** The commit looks a saved name up by its first owner, the preview partly by its last. A
  clean preview commits if and only if both agree on the targets that are used (`HostImport.CleanPreviewCommits`);
  `HostImport.RepeatedNameSplitsCheckers` has a preview that accepts what the commit refuses. With unique names the
  two always agree.
* **Chains of imported hosts.** Given hosts that keep the repository's rule for jump settings, what an imported host
  connects through ends in its listed hops exactly when every hop after the first is imported, or is a saved host that
  has that jump already (`ConnectionChain.ImportedChainEnds`). It always resolves (`ConnectionChain.ImportedHostConnects`).
* **What a preview does not tell.** A preview compares ids and contents. A repository also refuses a host with two kinds
  of jump settings, a hop that is listed twice once references are replaced, a name or shortcut that is taken, and a
  row too many. Commit therefore succeeds if and only if, besides, the preview admits all rows to be created
  (`ConfigurationImport.ConfigurationService.Commit`), a condition on the preview alone
  (`ConfigurationRules.StepAdmitted`). `ConfigurationWitnesses.BothKindsOfJumps`,
  `ConfigurationWitnesses.ListedWithItsCopy` and `ConfigurationWitnesses.NameTaken` have previews that can be committed
  and commits that are refused.
* **A second import.** After an import the same document has nothing to create and no conflict. It can be committed
  again if and only if no created row stands under the key of another row of the document
  (`ConfigurationImport.SecondPreviewCounts`), and so whenever the ids to be given out are none of the document's
  (`ConfigurationImport.ApartIdsCommit`). `ConfigurationWitnesses.ReusedId` is a document for which it cannot; random ids
  rule that out in practice.
* **Length of the conversation.** The counter that marks a conversation as truncated adds two separator characters
  also for a message that was redacted to nothing, while the join leaves it out. Such a conversation is reported as
  truncated though all of it is there (`AiContext.SafeLengthCounts`, `AiContext.TruthfulSource`).
* **Failed writes of a remote copy.** When the look at a target fails, the target counts as free; the write then
  fails because the file exists, and the cleanup unlinks that file (`RemoteCopy.ExistingFileLost`).
  `RemoteCopy.Sftp.CopyFile` therefore promises to restore what was there only for a target that did not exist.
* **Overwriting.** A copy or move that overwrites a directory removes it first, and with it a source inside it. Such a
  request fails though no request to the server does, and the source is gone (`RemoteOperation.OperateOne`, by
  `RemoteOperation.LosesSource`; `RemoteOperation.OwnParentOverwritten` is an instance). In every other case a copy
  leaves its source as it was.
* **Closing the sync service.** The lock promises hold in every run in which no close ends while an operation is in
  flight, and every operation holds its lock throughout a run if and only if that is so (`SyncLock.HeldThroughout`).
  `SyncLock.CloseMidFlight` is a run in which all three promises break.
* **Late commits.** A commit of a download that returns after a newer preview was made forgets that newer preview
  (`SyncLock.CommitReturnsLate`).
* **Missing bookmarks.** A batch target whose bookmark has no host fails with its steps left queued, and no other target
  keeps a queued step (`BatchLeftovers.QueuedLeftovers`). `BatchLeftovers.LeftQueued` is an operation that ends with its
  only step queued.

## Model

| member | source | states |
|---|---|---|
| `HostPlans.UniqueHostLookup` | packages/runtime/src/application/host-import-service.ts:1352-1359 | the lookup keeps the first saved host of every name |
| `HostPlans.AliasResolver.AddHostname` | packages/runtime/src/application/host-import-service.ts:1363-1366 | an alias is added to the set of its hostname and to no other |
| `HostPlans.AliasResolver.ResolveAlias` | packages/runtime/src/application/host-import-service.ts:1371-1380 | a jump text is a planned or saved name, else a bare destination that is one, else the only host with that hostname |
| `HostPlans.Resolve` | packages/runtime/src/application/host-import-service.ts:1371-1380 | whatever a jump text resolves to is planned or saved |
| `HostPlans.ResolveMeans` | packages/runtime/src/application/host-import-service.ts:1371-1380 | a jump text resolves exactly to what it means: a name if there is one, else a bare destination, else the only alias with that hostname |
| `HostPlans.RecordsFacts` | packages/runtime/src/application/host-import-service.ts:462-474 | the recorded edges of a set exist exactly when no alias has two targets or jumps to itself, and then they are unique |
| `SuccessorGraph.FindCycle` | packages/runtime/src/application/host-import-service.ts:1468-1495 | the preview's iterative walk finds a cycle exactly when the walk from the alias never ends, and what it reports is a closed walk |
| `SuccessorGraph.CycleGuard.Visit` | packages/runtime/src/application/host-import-service.ts:1513-1522 | the commit's recursive visit terminates on every graph and refuses exactly when the walk from the alias never ends |
| `SuccessorGraph.CycleGuard.Check` | packages/runtime/src/application/host-import-service.ts:1499-1524 | the guard passes exactly when the walk from every planned alias ends |
| `HostPreview.JumpProblems.SetEdge` | packages/runtime/src/application/host-import-service.ts:1401-1414 | an edge that contradicts an earlier one, or closes on itself, is the only one that adds a problem; the others are recorded |
| `HostPreview.JumpProblems.CollectHops` | packages/runtime/src/application/host-import-service.ts:1416-1432 | the hops of a jump list become edges, the list ends at the first destination that does not resolve |
| `HostPreview.JumpProblems.CollectEdges` | packages/runtime/src/application/host-import-service.ts:1416-1433 | the first pass is free of problems exactly when every destination resolves and the edges agree |
| `HostPreview.JumpProblems.CheckSavedEdges` | packages/runtime/src/application/host-import-service.ts:1441-1451 | it adds a problem exactly when a saved host would be rebound |
| `HostPreview.JumpProblems.CheckAbsentJumps` | packages/runtime/src/application/host-import-service.ts:1452-1460 | it adds a problem exactly when a saved host of the import has a jump that the import lacks |
| `HostPreview.JumpProblems.CheckCycles` | packages/runtime/src/application/host-import-service.ts:1462-1495 | it adds a problem exactly when some planned alias runs into a cycle |
| `HostPreview.PreviewJumpProblems` | packages/runtime/src/application/host-import-service.ts:1384-1497 | there is no problem exactly when the jumps are clean, and problems are told to planned hosts only |
| `HostImport.PlanPreview` | packages/runtime/src/application/host-import-service.ts:285-299 | one plan for the first host of each alias; the duplicates are exactly the hosts whose alias an earlier one has |
| `HostImport.PreviewItems` | packages/runtime/src/application/host-import-service.ts:275-356 | no parsed host is skipped exactly when the preview is clean; repeated aliases and hosts that differ from the saved one are skipped, with clean jumps nobody else is, and the others are imported, unchanged or linked as saved hosts and bookmarks say |
| `HostImport.SubmitDrafts` | packages/runtime/src/application/host-import-service.ts:167-214 | a submission is refused exactly for unknown or repeated items, and otherwise selects the submitted content of selected items |
| `HostImport.UneditedSubmission` | packages/runtime/src/application/host-import-service.ts:181-214 | all items submitted selected and unedited are exactly the parsed hosts |
| `HostImport.SelectedTells` | packages/runtime/src/application/host-import-service.ts:181-214 | exactly the selected drafts are submitted, as edited |
| `HostImport.SelectedInOrder` | packages/runtime/src/application/host-import-service.ts:183-214 | they come in the order of the preview |
| `HostCommit.CollectSources` | packages/runtime/src/application/host-import-service.ts:406-434 | the commit refuses a repeated alias exactly when it does not repeat the connection of the first one |
| `HostCommit.PlanIsFirst` | packages/runtime/src/application/host-import-service.ts:406-434 | a plan is made from the first item of its alias |
| `HostCommit.BuildPlans` | packages/runtime/src/application/host-import-service.ts:406-459 | plans are built exactly when duplicates agree and saved hosts have the same connection, with the error that applies |
| `HostCommit.SetDesiredEdge` | packages/runtime/src/application/host-import-service.ts:463-474 | an edge is refused exactly when it makes the edges contradictory, as a cycle or as a conflict of targets |
| `HostCommit.CollectDesiredEdges` | packages/runtime/src/application/host-import-service.ts:476-491 | all edges are collected exactly when every destination resolves and the edges agree, and they are the same edges the preview sees |
| `HostCommit.CheckSavedPlans` | packages/runtime/src/application/host-import-service.ts:495-512 | the rebind check passes exactly when every saved host of the import keeps its jump; otherwise the error is that of the first that does not, by whether its target is saved |
| `HostImport.CheckJumps` | packages/runtime/src/application/host-import-service.ts:492-517 | the commit's cycle and rebind checks pass exactly when the jumps are acceptable; a cycle is reported before any rebinding |
| `HostImport.PlanCommit` | packages/runtime/src/application/host-import-service.ts:406-517 | the checks of the commit pass exactly when the submission is acceptable, a condition on values alone |
| `HostCommit.TopologicalHosts.Visit` | packages/runtime/src/application/host-import-service.ts:1529-1536 | on an alias whose walk ends the recursion ends, keeps what was listed, and lists the alias if it is new |
| `HostCommit.TopologicalNewHosts` | packages/runtime/src/application/host-import-service.ts:1526-1539 | every new host is listed exactly once and after its new jump host |
| `HostImport.JumpHostAvailable` | packages/runtime/src/application/host-import-service.ts:517-522 | the jump host of the next host to create is saved or created already: the branch for an unavailable one is not reached |
| `HostImport.HostRepository.CreateHost` | packages/runtime/src/application/host-import-service.ts:523-538 | a created host gets an id not used before and the jump it was given; the others stay |
| `HostImport.CreateHosts` | packages/runtime/src/application/host-import-service.ts:514-539 | the creation loop links every new host to the host of its desired alias |
| `HostImport.Commit` | packages/runtime/src/application/host-import-service.ts:392-539 | the commit succeeds exactly when the submission is acceptable; then every plan has its host, linked as desired, and otherwise nothing is written |
| `HostImport.EveryItemHonoured` | packages/runtime/src/application/host-import-service.ts:406-459 | after a commit every submitted item has its host, with the hostname, port and user it asks for, even where several items share an alias; all of those name the same jumps, and the first one decides the rest |
| `HostImport.SameGraph` | packages/runtime/src/application/host-import-service.ts:1462-1467 | on a clean preview the two checkers walk the same graph, though one looks desired edges up first and the other the plans |
| `HostImport.SameRebind` | packages/runtime/src/application/host-import-service.ts:495-512 | on a clean preview the commit's rebind check says the same as the preview's exactly when both lookups of the target's name agree |
| `HostImport.CleanPreviewCommits` | packages/runtime/src/application/host-import-service.ts:392-512 | a clean preview commits if and only if the first and the last saved host of each used name are the same |
| `HostImport.CleanPreviewCommitsUniquely` | packages/runtime/src/application/host-import-service.ts:1384-1497 | with unique saved names a preview that skips nothing always commits: no alias, conflict, rebind or cycle error |
| `HostImport.RepeatedNameSplitsCheckers` | packages/runtime/src/application/host-import-service.ts:1435-1437 | with a repeated saved name the preview can accept what the commit refuses |
| `ConnectionChain.GetHost` | packages/runtime/src/application/connection-service.ts:296 | a host is found by id exactly when one has it |
| `ConnectionChain.ResolveChain` | packages/runtime/src/application/connection-service.ts:280-301 | a chain is found exactly when the jump list or the stored jumps lead to an end, and then it is that chain; otherwise the walk comes back to a host it has met, or to an id that no host has, and the error says which |
| `ConnectionChain.OneReason` | packages/runtime/src/application/connection-service.ts:280-301 | there is at most one reason why a connection has no chain |
| `ConnectionChain.ResolveExplicit` | packages/runtime/src/application/connection-service.ts:281-289 | an explicit jump list is followed exactly when it names saved hosts, none of them twice and not the target; otherwise the error is that of the first hop that is no further saved host |
| `ConnectionChain.ChainDistinct` | packages/runtime/src/application/connection-service.ts:290-300 | no host appears twice in a chain |
| `ConnectionChain.ImportStoresSuccessor` | packages/runtime/src/application/host-import-service.ts:514-539 | after a commit every saved host stores the successor that the cycle check walked |
| `ConnectionChain.StaysConfigured` | packages/runtime/src/adapters/sqlite/product-repository.ts:576-601 | an import breaks no host's jump settings: never both kinds, and a list names further saved hosts only |
| `ConnectionChain.CreationAllowed` | packages/runtime/src/adapters/sqlite/product-repository.ts:594-601 | the repository's check of a host that the import creates never fails: its stored jumps lead to an end over hosts that are there by then |
| `ConnectionChain.ImportedHostConnects` | packages/runtime/src/application/connection-service.ts:280-301 | after a commit what a host of the import connects through resolves, whether it has a jump list or stored jumps: no cycle and no unknown host |
| `ConnectionChain.ImportedChainEnds` | packages/runtime/src/application/host-import-service.ts:476-491 | what that connection goes through ends with the listed hops in order and the host, exactly when every hop after the first is imported or already stored with that jump |
| `ConfigurationDocument.SiblingsAreReferences` | packages/runtime/src/application/axterm-configuration-inspection.ts:88-100 | the edges searched for cycles are exactly the references of a row into its own collection |
| `ConfigurationDocument.SortOrders` | packages/runtime/src/application/axterm-configuration-service.ts:540-542 | rows come in the order of their positions, and rows of one position in the order they had |
| `ConfigurationInspection.Inspector.Add` | packages/runtime/src/application/axterm-configuration-inspection.ts:32-35 | every issue is counted, the first 256 are kept in order |
| `ConfigurationInspection.Inspector.CheckRow` | packages/runtime/src/application/axterm-configuration-inspection.ts:44-51 | a row adds one issue if its id is repeated and one if the target has another row of that id, and none exactly when neither is so |
| `ConfigurationInspection.Inspector.CheckCollections` | packages/runtime/src/application/axterm-configuration-inspection.ts:38-53 | the first pass lists exactly these issues, collection by collection and row by row, and none exactly when ids are unique and agree with the target |
| `ConfigurationInspection.Inspector.CheckReference` | packages/runtime/src/application/axterm-configuration-inspection.ts:55-57 | an issue is added exactly for a reference that names no row |
| `ConfigurationInspection.Inspector.CheckReferences` | packages/runtime/src/application/axterm-configuration-inspection.ts:80-87 | the references of a collection add exactly one issue for each that names no row, in order, and none exactly when all of them name rows |
| `ConfigurationInspection.Inspector.VisitHost` | packages/runtime/src/application/axterm-configuration-inspection.ts:103-112 | the depth-first visit ends on every graph, every reference that it reports lies on a cycle, and it keeps what rules out or exhibits one |
| `ConfigurationInspection.Inspector.CheckHostCycles` | packages/runtime/src/application/axterm-configuration-inspection.ts:88-113 | a cycle among hosts is reported exactly when the jump references have a directed cycle, and every reported reference lies on one |
| `ConfigurationInspection.Inspector.VisitGroup` | packages/runtime/src/application/axterm-configuration-inspection.ts:65-76 | a visit adds at most one issue, for a group on the cycle that the visited path runs into |
| `ConfigurationInspection.Inspector.CheckGroupCycles` | packages/runtime/src/application/axterm-configuration-inspection.ts:58-78 | a tree of groups gets exactly one issue for each cycle of its parents |
| `ConfigurationInspection.Inspector.CheckTabs` | packages/runtime/src/application/axterm-configuration-inspection.ts:168-176 | tabs add exactly the issues of their repeated ids and missing references, in order, and none exactly when there are none of these |
| `ConfigurationInspection.Inspector.InspectLayout` | packages/runtime/src/application/axterm-configuration-inspection.ts:164-185 | a layout adds exactly the issues of its tabs and of what it shows without having a tab for it, and none exactly when it is consistent |
| `ConfigurationInspection.Inspector.InspectWorkspaces` | packages/runtime/src/application/axterm-configuration-inspection.ts:149-155 | named workspaces add exactly the issues of repeated ids and of their layouts, in order, and none exactly when they are consistent |
| `ConfigurationInspection.Inspector.InspectSettings` | packages/runtime/src/application/axterm-configuration-inspection.ts:137-160 | the settings add exactly the issues of their parts, in order, and none exactly when all of them are consistent |
| `ConfigurationInspection.Inspector.InspectCollections` | packages/runtime/src/application/axterm-configuration-inspection.ts:36-136 | the issues of the collections are those of ids, references and cycles in the order of the report, and there are none exactly when the collections are unique, matching, complete and free of cycles |
| `ConfigurationInspection.Inspector.Inspect` | packages/runtime/src/application/axterm-configuration-inspection.ts:23-162 | the whole list of issues is that of the collections followed by that of the settings |
| `ConfigurationInspection.ReportTells` | packages/runtime/src/application/axterm-configuration-inspection.ts:36-136 | the report names exactly the rows whose id is repeated, the rows that the target has another version of, and the references that lead nowhere |
| `ConfigurationInspection.DocumentFound` | packages/runtime/src/application/axterm-configuration-inspection.ts:36-136 | the collections are consistent exactly if there is nothing to report about them |
| `ConfigurationInspection.SettingsFound` | packages/runtime/src/application/axterm-configuration-inspection.ts:137-160 | the settings are consistent exactly if there is nothing to report about them |
| `ConfigurationInspection.RetainedDecide` | packages/runtime/src/application/axterm-configuration-service.ts:300-303 | the 256 retained issues decide as all issues would |
| `ReferenceGraph.RankedAcyclic` | packages/runtime/src/application/axterm-configuration-inspection.ts:103-113 | rows listed after everything they refer to have no cycle |
| `ReferenceGraph.StuckHasCycle` | packages/runtime/src/application/axterm-configuration-service.ts:508-509 | rows that all wait for one another contain a cycle |
| `ConfigurationPreview.CountActions` | packages/runtime/src/application/axterm-configuration-service.ts:760-773 | the counts are the tallies of the actions and add up to the number of rows |
| `ConfigurationPreview.ActionTells` | packages/runtime/src/application/axterm-configuration-service.ts:279-299 | a row is created if it stands for nothing in the target, kept if it stands for an equal row, and a conflict otherwise; it stands for the copy an earlier import made, as long as that is there, or else for the row of its id |
| `ConfigurationPreview.Planner.PlanRow` | packages/runtime/src/application/axterm-configuration-service.ts:281-298 | each row gets the action its mapping and its existing row call for, a target when it is unchanged, and an issue when it has changed since it was imported |
| `ConfigurationPreview.Planner.Plan` | packages/runtime/src/application/axterm-configuration-service.ts:279-299 | every row of every collection is classified, and the issues of changed rows follow those of the inspection, all counted and the first 256 kept |
| `ConfigurationPreview.PreviewDocument` | packages/runtime/src/application/axterm-configuration-service.ts:262-331 | the preview can be committed exactly when the document is importable, looking at retained issues only; its issues are the first 256 of the inspection's and the changed rows', with the count of all |
| `ConfigurationRules.AssertJumpConfiguration` | packages/runtime/src/adapters/sqlite/product-repository.ts:576-601 | a host that is not saved yet may have its jump settings exactly when they are of one kind, the list names further saved hosts only, and the stored jumps it would walk come to an end |
| `ConfigurationRules.LabelStep` | packages/runtime/src/adapters/sqlite/database.ts:34-39 | the name of the next row is free exactly when no row saved before the import and no row created so far has it |
| `ConfigurationRules.RoomStep` | packages/runtime/src/application/quick-command-service.ts:129-137 | there is room for the next row exactly when it fits the limit together with the rows saved before and those created so far |
| `ConfigurationRules.JumpStep` | packages/runtime/src/adapters/sqlite/product-repository.ts:576-601 | the jump settings of the next host, with its references replaced, are taken exactly when those of the document are of one kind, its hops get different targets, and a jump host known before leads to an end |
| `ConfigurationRules.CreatedWalkEnds` | packages/runtime/src/adapters/sqlite/product-repository.ts:594-601 | from every created host the stored jumps come to an end, through created hosts and those saved before |
| `ConfigurationRules.StepAdmitted` | packages/runtime/src/adapters/sqlite/product-repository.ts:337-405 | the repository takes the next row exactly when the preview admits it together with the rows created so far |
| `ConfigurationRules.AdmitsLess` | packages/runtime/src/adapters/sqlite/product-repository.ts:337-405 | rows that may be created all together may be created in part, so that the order of creation does not matter |
| `ConfigurationRules.StaysConfigured` | packages/runtime/src/adapters/sqlite/product-repository.ts:576-601 | if all saved hosts keep the rule for jump settings they still do after an import |
| `ConfigurationImport.ConfigurationService.Accept` | packages/runtime/src/adapters/sqlite/product-repository.ts:337-405 | a row is taken exactly when it is valid, there is room, its name is free and its jump settings are allowed |
| `ConfigurationImport.ConfigurationService.Create` | packages/runtime/src/application/axterm-configuration-service.ts:408-423 | a row is created with a new id once all it refers to is known, and its target and entry are registered; if the repository refuses it, the preview could have told |
| `ConfigurationRun.RemapStable` | packages/runtime/src/application/axterm-configuration-service.ts:426-439 | a remapped row depends on the targets of its own references only |
| `ConfigurationRun.RemapRedirects` | packages/runtime/src/application/axterm-configuration-service.ts:549-575 | a stored row holds the references of its source, field by field and in order, each replaced by its target; under its new id the rest is the source's own |
| `ConfigurationRun.ReferenceFields` | packages/runtime/src/application/axterm-configuration-service.ts:495-502 | the reference fields that are remapped are exactly the references that were inspected |
| `ConfigurationImport.RowResolvable` | packages/runtime/src/application/axterm-configuration-service.ts:426-439 | the error for an unresolved reference is not reached once the collections before are complete |
| `ConfigurationImport.ConfigurationService.ImportRows` | packages/runtime/src/application/axterm-configuration-service.ts:441-448 | a collection that does not refer to itself is imported in one loop, in the order of the list |
| `ConfigurationImport.ConfigurationService.ImportPass` | packages/runtime/src/application/axterm-configuration-service.ts:515-536 | a pass creates every ready row it meets and says whether it got anywhere |
| `ConfigurationImport.SomeReady` | packages/runtime/src/application/axterm-configuration-service.ts:508-509 | while rows wait, one of them is ready: the error for cyclic references is not reached |
| `ConfigurationImport.ConfigurationService.ImportWorklist` | packages/runtime/src/application/axterm-configuration-service.ts:512-539 | the worklist ends with every row of the collection imported, each after the rows it refers to |
| `ConfigurationImport.ConfigurationService.ImportHosts` | packages/runtime/src/application/axterm-configuration-service.ts:441-510 | groups, profiles and then hosts are imported, unless one of them is refused |
| `ConfigurationImport.ConfigurationService.ImportTrees` | packages/runtime/src/application/axterm-configuration-service.ts:511-655 | bookmarks, tunnels and quick commands are imported with their groups, bookmarks and commands in the order of their positions |
| `ConfigurationImport.ConfigurationService.ApplySettings` | packages/runtime/src/application/axterm-configuration-service.ts:669-686 | the settings are stored with every reference leading to its target; all the targets they need are known by then |
| `ConfigurationImport.SettingsReferencesResolve` | packages/runtime/src/application/axterm-configuration-service.ts:775-833 | no reference of the settings is left without a target |
| `ConfigurationImport.SettingsLead` | packages/runtime/src/application/axterm-configuration-service.ts:775-833 | every reference of the stored settings leads to the target of what it led to, and none is lost; tabs, workspaces and what is shown stay in order, and a theme that is nowhere becomes the one in use |
| `ConfigurationSettings.SettingsStaySound` | packages/runtime/src/application/axterm-configuration-service.ts:775-833 | settings of a consistent document stay sound: they refer to saved rows, tabs and workspaces keep ids of their own, and what is shown is one of them |
| `ConfigurationSettings.ImportedSettingsSound` | packages/runtime/src/application/axterm-configuration-service.ts:669-686 | after an import that applies the settings none of them refers to a row that is not there |
| `ConfigurationImport.ConfigurationService.ImportPreview` | packages/runtime/src/application/axterm-configuration-service.ts:399-721 | the import of a committable preview runs to the end exactly when the preview admits all rows to be created; then every row asked for is created once, after all it refers to, and the counts say so |
| `ConfigurationImport.ConfigurationService.Transaction` | packages/runtime/src/adapters/sqlite/database.ts:1151-1172 | a refused import leaves nothing behind, and a finished one everything |
| `ConfigurationImport.ConfigurationService.Commit` | packages/runtime/src/application/axterm-configuration-service.ts:342-367 | commit imports exactly when the preview allows it, the target is unchanged and the preview admits all rows to be created; otherwise it writes nothing and the error says which of the three was missing |
| `ConfigurationRun.RunKeeps` | packages/runtime/src/application/axterm-configuration-service.ts:408-423 | rows from before the import stay as they were and new ones get new ids |
| `ConfigurationRun.AllStored` | packages/runtime/src/application/axterm-configuration-service.ts:442-448 | every created row is stored with the references of its source, in order, each replaced by its final target, though later rows were still to come; all else is the source's own |
| `ConfigurationImport.AllTargetsSaved` | packages/runtime/src/application/axterm-configuration-service.ts:406 | every target names a saved row |
| `ConfigurationImport.CreatedRowRefersToSaved` | packages/runtime/src/application/axterm-configuration-service.ts:426-439 | a created row refers to saved rows only, namely to the targets of what its source refers to |
| `ConfigurationImport.SavedRowsKept` | packages/runtime/src/application/axterm-configuration-service.ts:399-721 | an import changes no row that was there before |
| `ConfigurationImport.SecondPreviewUnchanged` | packages/runtime/src/application/axterm-configuration-service.ts:286-294 | after an import every row of the same document is classified as unchanged, with the created row as its target |
| `ConfigurationImport.ChangedRowConflicts` | packages/runtime/src/application/axterm-configuration-service.ts:286-294 | a row that has changed since it was imported is a conflict, and never overwrites its copy |
| `ConfigurationImport.DeletedCopyComesBack` | packages/runtime/src/application/axterm-configuration-service.ts:286-288 | a row whose copy has been deleted since is created again |
| `ConfigurationImport.SecondPreviewCounts` | packages/runtime/src/application/axterm-configuration-service.ts:300-303 | the second preview has nothing to create and no conflict, and can be committed if and only if no created row stands where the document has another one |
| `ConfigurationImport.ApartIdsCommit` | packages/runtime/src/application/axterm-configuration-service.ts:300-303 | that is so whenever none of the ids to be given out is an id of the document |
| `ConfigurationImport.SecondImportAdmitted` | packages/runtime/src/application/axterm-configuration-service.ts:286-303 | a second import of the same document has nothing that could be refused |
| `ConfigurationWitnesses.BothKindsOfJumps` | packages/runtime/src/adapters/sqlite/product-repository.ts:581-586 | a document whose preview can be committed and whose commit is refused: a host has both kinds of jump settings |
| `ConfigurationWitnesses.ListedWithItsCopy` | packages/runtime/src/adapters/sqlite/product-repository.ts:587-592 | another one: a host is listed together with the copy of it that an earlier import made, and both get one target |
| `ConfigurationWitnesses.NameTaken` | packages/runtime/src/adapters/sqlite/database.ts:34 | another one: the target has a group of the same name under another id |
| `ConfigurationWitnesses.ReusedId` | packages/runtime/src/application/axterm-configuration-service.ts:286-297 | a document that cannot be committed a second time: its first group is created under the id of its second |
| `ConfigurationImport.StillConsistent` | packages/runtime/src/application/axterm-configuration-inspection.ts:44-51 | more rows leave a consistent document consistent if and only if they replace none of its rows |
| `AiWorkBudget.Budget.constructor` | packages/runtime/src/application/ai-work-budget.ts:5-12 | a new budget has thirty minutes to work and no step taken |
| `AiWorkBudget.Budget.Pause` | packages/runtime/src/application/ai-work-budget.ts:24-29 | from a pause on no working time passes |
| `AiWorkBudget.Budget.Resume` | packages/runtime/src/application/ai-work-budget.ts:30-35 | working time goes on from where it was paused; resuming twice changes nothing |
| `AiWorkBudget.Budget.Due` | packages/runtime/src/application/ai-work-budget.ts:13-23 | the armed timer is due exactly when thirty minutes have been worked, pauses not counted |
| `AiWorkBudget.Budget.Next` | packages/runtime/src/application/ai-work-budget.ts:36-41 | at most fifty steps are granted, none after an abort |
| `AiService.Service.StartRun` | packages/runtime/src/application/ai-service.ts:197-231 | a work run is admitted exactly when its terminal is free and fewer than four are working |
| `AiService.Service.NextStep` | packages/runtime/src/application/ai-service.ts:1023 | a command takes the next step of its run or fails |
| `AiService.Service.ProposeCall` | packages/runtime/src/application/ai-service.ts:1024-1063 | a command on the unchanged target becomes a proposed call under review |
| `AiService.Service.BindCall` | packages/runtime/src/application/ai-service.ts:1084-1098 | the review is stored first, then the hash of the call as it is stored |
| `AiService.Service.ReviewDone` | packages/runtime/src/application/ai-service.ts:1083-1104 | a review that is over binds the call and refuses, waits for a human or goes on to the final check |
| `AiService.Service.WaitForApproval` | packages/runtime/src/application/ai-service.ts:960-1007 | an approval record is made and the command waits, unless its run is aborted already |
| `AiService.Service.LaunchCommand` | packages/runtime/src/application/ai-service.ts:1104-1129 | the command starts only if the stored call still has its hash, state, generation and time; otherwise it fails |
| `AiService.Service.PromiseSettled` | packages/runtime/src/application/ai-service.ts:1104 | a released command goes on to its final check, a refused one fails |
| `AiService.Service.ToolReturned` | packages/runtime/src/application/ai-service.ts:1130-1145 | the outcome of the tool is stored unless the run was aborted meanwhile |
| `AiService.Service.FailCommand` | packages/runtime/src/application/ai-service.ts:1146-1163 | a failed command ends its call and its run, as canceled after an abort other than the time limit |
| `AiService.Service.Decide` | packages/runtime/src/application/ai-service.ts:609-666 | a decision counts only for a pending approval that matches the stored call in every field and in time; approving releases the waiting command, rejecting cancels the run |
| `AiService.Service.ExpireApproval` | packages/runtime/src/application/ai-service.ts:633-642 | a decision that comes too late expires the approval and cancels call and run |
| `AiService.Service.SweepEntry` | packages/runtime/src/application/ai-service.ts:489-502 | listing the approvals expires those whose time is over, with their calls and runs |
| `AiService.Service.ApprovalTimer` | packages/runtime/src/application/ai-service.ts:993-1001 | the timer of a waiting command expires its approval and aborts its run |
| `AiService.Service.Cancel` | packages/runtime/src/application/ai-service.ts:594-607 | canceling aborts the run and closes its pending approvals and open calls |
| `AiService.Service.RejectPending` | packages/runtime/src/application/ai-service.ts:598-601 | exactly the pending approvals of the run are rejected |
| `AiService.Service.CancelCalls` | packages/runtime/src/application/ai-service.ts:602-605 | exactly the open calls of the run are canceled |
| `AiService.Service.AbortController` | packages/runtime/src/application/ai-service.ts:982-992 | an abort rejects the waiting commands of its run and nobody else's |
| `AiService.Service.RunEnded` | packages/runtime/src/application/ai-service.ts:905-943 | a run that ends is unregistered and frees its terminal |
| `AiService.Service.Take` | packages/runtime/src/application/ai-service.ts:1009-1164 | whatever the order of steps, the object is in the state that the sequence of steps leads to |
| `WorkTargets.AlwaysLimited` | packages/runtime/src/application/ai-service.ts:203-225 | over every interleaving at most four terminals are at work, each with a registered run of its own, and no run with two of them |
| `WorkTargets.FreedByItsRun` | packages/runtime/src/application/ai-service.ts:936-941 | the end of a run frees its terminal and no other |
| `WorkTargets.AdmittedExactly` | packages/runtime/src/application/ai-service.ts:197-231 | in every run a work run is admitted exactly if it is new, its terminal is free and fewer than four runs are under way; it then goes on from step zero, and otherwise nothing changes |
| `ReviewedCommands.NextKeeps` | packages/runtime/src/application/ai-service.ts:1009-1164 | every step of every party keeps the invariant of the protocol |
| `ReviewedCommands.Reachable` | packages/runtime/src/application/ai-service.ts:946-1129 | every state of every interleaving satisfies the invariant |
| `ReviewedCommands.CommandsStartChecked` | packages/runtime/src/application/ai-service.ts:1104-1129 | every started command had its bound hash and an unexpired review and was auto-approved, or approved by one recorded decision; none starts twice |
| `ReviewedCommands.StartsOnlyUncanceled` | packages/runtime/src/application/ai-service.ts:594-607 | a step starts at most one command, and none in a run that was ever canceled or aborted |
| `ReviewedCommands.AtMostFiftyStart` | packages/runtime/src/application/ai-work-budget.ts:36-41 | at most fifty commands of a run ever start, each on its own step |
| `CommandProgress.AutoApprovedStarts` | packages/runtime/src/application/ai-service.ts:1095-1129 | a command that the review lets pass is started by the final check, unless its run was aborted or its stored call was changed |
| `CommandProgress.ReachableUntouched` | packages/runtime/src/application/ai-service.ts:1118-1120 | as long as the rows are the service's own, a call has no source before it starts, and an approval is that of its command and expires with its review |
| `CommandProgress.PledgeLasts` | packages/runtime/src/application/ai-service.ts:661-664 | an approved command stays as it was approved through everything that may happen before its code goes on, unless its run is aborted |
| `CommandProgress.ApprovedStarts` | packages/runtime/src/application/ai-service.ts:661-664 | a command that a human approves starts as it was shown when its code goes on, whatever happened in between that did not abort its run, alter the rows or use up the time: no approval is in vain |
| `ReviewedCommands.ApprovedIsStarted` | packages/runtime/src/application/ai-service.ts:643-664 | what a human approved is what starts, field by field, unless the stored hash was changed from outside |
| `CommandAnswers.RejectionTells` | packages/runtime/src/application/ai-service.ts:655-659 | a rejection in time aborts and stops the run of the command, rejects its pending approvals, cancels its open calls and refuses whatever waits in it; no row of another run changes |
| `CommandAnswers.CancelTells` | packages/runtime/src/application/ai-service.ts:594-607 | canceling a run that goes on does the same; on a run that is over it sends at most the signal |
| `CommandAnswers.RejectedNeverStarts` | packages/runtime/src/application/ai-service.ts:655-659 | what a human rejects in time never starts, whatever follows, and no other command of its run does |
| `CommandAnswers.CanceledStartsNothing` | packages/runtime/src/application/ai-service.ts:594-607 | the same for a run that is canceled before it has ended |
| `CommandAnswers.AbortedStartsNothing` | packages/runtime/src/application/ai-service.ts:1104-1129 | an aborted run starts nothing any more, over every continuation |
| `CommandAnswers.GrantTells` | packages/runtime/src/application/ai-service.ts:661-666 | an approval in time releases its command and is recorded; nothing else changes |
| `CommandAnswers.LateTells` | packages/runtime/src/application/ai-service.ts:633-642 | a decision that comes too late, either way, expires the approval, cancels its call and stops its run |
| `CommandAnswers.OtherwiseIgnored` | packages/runtime/src/application/ai-service.ts:609-654 | any other decision changes nothing |
| `CommandAnswers.SweepTells` | packages/runtime/src/application/ai-service.ts:489-502 | listing expires what is overdue, with its call if that is open and its run if that goes on |
| `CommandAnswers.TimerTells` | packages/runtime/src/application/ai-service.ts:993-1001 | the timer of a waiting command expires its approval and aborts its run, and leaves call and run to the code that waited |
| `CommandAnswers.JudgeTells` | packages/runtime/src/application/ai-service.ts:1083-1104 | a review in time is stored and bound; then a rejected command fails, a doubtful one is put before a human, and one that passes starts if its call is still as proposed |
| `CommandAnswers.LaunchTells` | packages/runtime/src/application/ai-service.ts:1104-1129 | a command starts as it is stored if it passes the final check, and fails otherwise |
| `CommandAnswers.ResumeTells` | packages/runtime/src/application/ai-service.ts:1104 | where the code waits for a human, a settled promise starts the command or ends it |
| `CommandAnswers.ConcludeTells` | packages/runtime/src/application/ai-service.ts:1130-1145 | a result is stored as the tool reports it, unless the run was aborted meanwhile |
| `CommandAnswers.FailTells` | packages/runtime/src/application/ai-service.ts:1146-1163 | a failed command is over, its open call and its run end as failed, or as canceled if the run was aborted for another reason than its time |
| `CommandAnswers.BeginTells` | packages/runtime/src/application/ai-work-budget.ts:36-41 | the next command of a run takes the next number; an aborted run or an empty budget fails the run instead |
| `CommandAnswers.ProposeTells` | packages/runtime/src/application/ai-service.ts:1024-1063 | with its target at hand a command is stored as proposed, to be reviewed; without, it fails |
| `CommandAnswers.EndTells` | packages/runtime/src/application/ai-service.ts:905-943 | a run that ends is complete if its stream ended well; otherwise it keeps an end it had, or has failed |
| `CommandAnswers.CallTells` | packages/runtime/src/application/ai-service.ts:1009-1164 | a call appears when it is proposed, and its state goes by its own event, read from the step and the rows before it, and by nothing else |
| `CommandAnswers.StateTellsLastEvent` | packages/runtime/src/application/ai-service.ts:1009-1164 | in every run the stored state of a call is what the last event that concerned it means |
| `ConnectionService.ManagedConnection.ChainResolved` | packages/runtime/src/application/connection-service.ts:153-174 | a resolved chain starts with its first hop |
| `ConnectionService.ManagedConnection.CredentialsResolved` | packages/runtime/src/application/connection-service.ts:176-187 | with credentials the hop is opened |
| `ConnectionService.ManagedConnection.TransportConnected` | packages/runtime/src/application/connection-service.ts:203-218 | an opened hop is tracked, or discarded after an abort; the last one makes the connection ready |
| `ConnectionService.ManagedConnection.LateHandleClosed` | packages/runtime/src/application/connection-service.ts:204-207 | a handle that came too late is given up before the connect fails |
| `ConnectionService.ManagedConnection.ConnectRejected` | packages/runtime/src/application/connection-service.ts:148-151 | a failed connect goes into recovery |
| `ConnectionService.ManagedConnection.StartRecovery` | packages/runtime/src/application/connection-service.ts:598-619 | a recovery is refused while one runs or after an abort; otherwise it decides once whether to reconnect and takes the handles |
| `ConnectionService.ManagedConnection.OnClose` | packages/runtime/src/application/connection-service.ts:208-210 | the loss of a handle matters only while ready |
| `ConnectionService.ManagedConnection.ContinueRecovery` | packages/runtime/src/application/connection-service.ts:619-641 | a recovery closes its handles one by one and arms the timer only if nobody canceled or closed meanwhile |
| `ConnectionService.ManagedConnection.ReconnectTimerFired` | packages/runtime/src/application/connection-service.ts:627-637 | the timer connects again unless the connection is gone or reconnecting was switched off |
| `ConnectionService.ManagedConnection.CancelReconnect` | packages/runtime/src/application/connection-service.ts:560-570 | canceling is accepted exactly while reconnecting, and disarms the timer |
| `ConnectionService.ManagedConnection.Close` | packages/runtime/src/application/connection-service.ts:571-587 | closing aborts, disarms the timer and takes the handles over |
| `ConnectionService.ManagedConnection.ContinueClose` | packages/runtime/src/application/connection-service.ts:582-589 | a close gives up its handles one by one and then removes the connection |
| `ConnectionService.ManagedConnection.TakeHandles` | packages/runtime/src/application/connection-service.ts:652 | the tracked handles are taken all at once, last hop first |
| `ConnectionService.ManagedConnection.Take` | packages/runtime/src/application/connection-service.ts:148-247 | whatever the order of steps, the object is in the state that the sequence of steps leads to |
| `ConnectionLifecycle.ControlKept` | packages/runtime/src/application/connection-service.ts:598-641 | every step keeps the control invariant |
| `ConnectionLifecycle.HandlesKept` | packages/runtime/src/application/connection-service.ts:651-658 | every step keeps the account of handles |
| `ConnectionLifecycle.Reachable` | packages/runtime/src/application/connection-service.ts:148-247 | every state of every run satisfies both invariants |
| `ConnectionLifecycle.OneAtATime` | packages/runtime/src/application/connection-service.ts:598-641 | at most one of connect, recovery and armed timer is live; reconnects happen only after a first success and stay within the allowed attempts |
| `ConnectionLifecycle.NeverReadyAgain` | packages/runtime/src/application/connection-service.ts:224-230 | once ended, a connection is never ready again and never attempts to connect again, whatever follows |
| `ConnectionLifecycle.EndsForGood` | packages/runtime/src/application/connection-service.ts:560-589 | after an accepted cancel or a close nothing that follows makes the connection ready or attempts it again |
| `ConnectionLifecycle.HandlesAccounted` | packages/runtime/src/application/connection-service.ts:203-211 | every opened handle is tracked, being closed or closed, and tracked ones close from the last hop to the first |
| `ConnectionLifecycle.NothingLeaks` | packages/runtime/src/application/connection-service.ts:571-589 | when the connection is gone and nothing is in flight, the close of every handle it ever opened has been asked for and has settled |
| `ConnectionProgress.ChainConnects` | packages/runtime/src/application/connection-service.ts:176-230 | a connect that meets no failure ends ready, with one handle for each hop in the order of the hops |
| `ConnectionProgress.LossRecovers` | packages/runtime/src/application/connection-service.ts:598-641 | a lost connection closes its handles from the last hop to the first and then waits to reconnect, exactly when it may and has attempts left |
| `ConnectionProgress.ComesBack` | packages/runtime/src/application/connection-service.ts:598-641 | a lost connection that may reconnect and is not interfered with comes back: old handles closed, one new handle for each hop, attempts counted from zero |
| `ConnectionProgress.FailureRecovers` | packages/runtime/src/application/connection-service.ts:598-641 | a connect that fails gives up its handles from the last hop to the first and then waits to reconnect, exactly when it was ready before, may and has attempts left |
| `ConnectionProgress.TimerReconnects` | packages/runtime/src/application/connection-service.ts:627-637 | when the timer fires, a connection that may still reconnect starts a new attempt |
| `ConnectionProgress.AbortedFailureEnds` | packages/runtime/src/application/connection-service.ts:599-604 | after an abort a connect that fails just ends |
| `ConnectionProgress.LateOpenEnds` | packages/runtime/src/application/connection-service.ts:203-207 | a hop that opens after an abort is closed at once, and the connect ends |
| `ConnectionProgress.CloseEnds` | packages/runtime/src/application/connection-service.ts:571-589 | a close that nothing interferes with, with or without a grant to revoke, closes the handles from the last hop to the first and then leaves the connection closed and gone |
| `ConnectionProgress.GoneWhenClosed` | packages/runtime/src/application/connection-service.ts:588-589 | in every run a connection is gone exactly when a call of close has got to its end |
| `ConnectionProgress.StatusAlwaysTells` | packages/runtime/src/application/connection-service.ts:660-671 | at every point of every run the status tells what the connection is doing |
| `ConnectionProgress.CancelFails` | packages/runtime/src/application/connection-service.ts:560-570 | only a connection that is reconnecting can be canceled; then it has failed, and its timer is disarmed |
| `BatchOperationService.ManagedBatchOperation.WithCounts` | packages/runtime/src/application/batch-operation-service.ts:406-416 | the counts are the tallies of the targets |
| `BatchOperationService.ManagedBatchOperation.UpdateTarget` | packages/runtime/src/application/batch-operation-service.ts:310-319 | one target is replaced and the counts follow |
| `BatchOperationService.ManagedBatchOperation.WorkerTurn` | packages/runtime/src/application/batch-operation-service.ts:147-151 | a worker takes the next target or ends |
| `BatchOperationService.ManagedBatchOperation.ConnectionWaited` | packages/runtime/src/application/batch-operation-service.ts:202-210 | a target runs once its connection is ready and is given up otherwise |
| `BatchOperationService.ManagedBatchOperation.NextStep` | packages/runtime/src/application/batch-operation-service.ts:212-220 | the next step starts, or the target ends after its last step as its steps say |
| `BatchOperationService.ManagedBatchOperation.CommandReturned` | packages/runtime/src/application/batch-operation-service.ts:221-256 | the result of a step is recorded; a failed step that does not continue skips the rest |
| `BatchOperationService.ManagedBatchOperation.DelayOver` | packages/runtime/src/application/batch-operation-service.ts:240-243 | an abort during a delay gives the target up |
| `BatchOperationService.ManagedBatchOperation.TargetThrew` | packages/runtime/src/application/batch-operation-service.ts:266-283 | a target that is given up is canceled after an abort and failed otherwise, with its open steps |
| `BatchOperationService.ManagedBatchOperation.CancelOperation` | packages/runtime/src/application/batch-operation-service.ts:121-129 | canceling aborts once |
| `BatchOperationService.ManagedBatchOperation.CloseService` | packages/runtime/src/application/batch-operation-service.ts:139-142 | closing the service aborts an active operation without touching its state |
| `BatchOperationService.ManagedBatchOperation.CancelQueuedTargets` | packages/runtime/src/application/batch-operation-service.ts:351-369 | exactly the queued targets are canceled, with their steps |
| `BatchOperationService.ManagedBatchOperation.Settle` | packages/runtime/src/application/batch-operation-service.ts:161-172 | when all workers are done the operation gets its counts and its final state |
| `BatchOperationService.ManagedBatchOperation.Advance` | packages/runtime/src/application/batch-operation-service.ts:144-287 | whatever the order of steps, the object is in the state that the sequence of steps leads to |
| `BatchScheduler.Reachable` | packages/runtime/src/application/batch-operation-service.ts:144-287 | every state of every interleaving satisfies the invariant |
| `BatchScheduler.TakenOnce` | packages/runtime/src/application/batch-operation-service.ts:146-152 | every target below the cursor was taken by exactly one worker, and no two workers hold the same |
| `BatchScheduler.LiveWithinConcurrency` | packages/runtime/src/application/batch-operation-service.ts:155-160 | at most `concurrency` targets are connecting or running at any time |
| `BatchScheduler.FailureStops` | packages/runtime/src/application/batch-operation-service.ts:235-256 | in every run a failed step that does not continue is followed by skipped steps only, and nothing is canceled without an abort |
| `BatchProgress.StepDecreases` | packages/runtime/src/application/batch-operation-service.ts:147-151 | every step that changes anything brings the operation nearer to its end |
| `BatchProgress.RunsEnd` | packages/runtime/src/application/batch-operation-service.ts:144-173 | however it is scheduled, an operation makes only so many steps that change anything, a number known at its start |
| `BatchProgress.NeverStuck` | packages/runtime/src/application/batch-operation-service.ts:154-172 | a state in which neither a worker nor the final block can do anything is the end of the operation, canceled or not |
| `BatchProgress.OperationEnds` | packages/runtime/src/application/batch-operation-service.ts:144-173 | every run carried as far as it goes without a cancellation being needed ends within that number of steps, with all targets over and the counts their tallies |
| `BatchProgress.CanFinish` | packages/runtime/src/application/batch-operation-service.ts:144-173 | from every reachable state the operation can be brought to its end without canceling it or closing the service |
| `BatchLeftovers.AlwaysLeft` | packages/runtime/src/application/batch-operation-service.ts:176-191 | at every point of every run a target that was taken without a bookmark has failed with its steps untouched, and any other one that is over has no queued step |
| `BatchLeftovers.QueuedLeftovers` | packages/runtime/src/application/batch-operation-service.ts:176-191 | when an operation has ended, a target has a queued step exactly when the worker that took it found no bookmark |
| `BatchLeftovers.LeftQueued` | packages/runtime/src/application/batch-operation-service.ts:176-191 | an operation that ends with its only step still queued |
| `BatchAnswers.StepsTellReports` | packages/runtime/src/application/batch-operation-service.ts:221-262 | in every run a step has succeeded exactly if its command reported well and failed exactly if it reported badly; a target that was not taken without its bookmark has succeeded exactly if all its commands reported well, is canceled if it ended after an abort before it was done, and has failed otherwise |
| `BatchAnswers.CountsTell` | packages/runtime/src/application/batch-operation-service.ts:406-416 | at every point of every run the counts are the numbers of targets in each state |
| `BatchAnswers.InterruptionShown` | packages/runtime/src/application/batch-operation-service.ts:121-142 | until it is finished, an operation is aborted exactly if it was interrupted, and shows whether it was canceled |
| `BatchAnswers.WorkerTakes` | packages/runtime/src/application/batch-operation-service.ts:146-210 | an idle worker takes the next target if there is one and nobody has interrupted, and is done otherwise |
| `BatchAnswers.WorkerMoves` | packages/runtime/src/application/batch-operation-service.ts:212-264 | a worker runs the steps of its target in order, with the delays that are asked for, and then closes the connection |
| `BatchAnswers.OthersStay` | packages/runtime/src/application/batch-operation-service.ts:310-319 | a step changes no target but that of its worker |
| `BatchAnswers.OverStays` | packages/runtime/src/application/batch-operation-service.ts:144-287 | a target that is over stays as it is |
| `BatchScheduler.FinishedOperation` | packages/runtime/src/application/batch-operation-service.ts:161-172 | at the end every target is over, the counts are the tallies, and success means not aborted and all succeeded |
| `AiContext.LastOfJoin` | packages/runtime/src/application/ai-context.ts:79-82 | trimming the parts before a join does not change the window on it |
| `AiContext.SafeLengthCounts` | packages/runtime/src/application/ai-context.ts:77 | the length counter never falls short of the joined text, and is exact unless a message after the first non-empty one came out empty |
| `AiContext.BuildHistory` | packages/runtime/src/application/ai-context.ts:66-83 | trimming message by message gives the last 24,576 characters of everything joined |
| `AiContext.BuildBase` | packages/runtime/src/application/ai-context.ts:84-118 | history and explicit context stand in the base text where their segments say |
| `AiContext.Attach` | packages/runtime/src/application/ai-context.ts:119-146 | every attached file stands in the combined text where its segment says, after what was there before, and the combined text is the base followed by the files |
| `AiContext.Report` | packages/runtime/src/application/ai-context.ts:147-157 | what a source is reported to include is the part of it inside the final window |
| `AiContext.FilesBehind` | packages/runtime/src/application/ai-context.ts:119-133 | behind a text that is not empty the files add exactly their own characters and a separator each |
| `AiContext.BuildAiModelContext` | packages/runtime/src/application/ai-context.ts:40-166 | the context is the last 131,072 characters of the trimmed base followed by the attached files; of every source exactly that part is reported that lies within it, at its position, as the end of its text, and a source not marked truncated appears in full |
| `AiContext.RedactedLeavesNoTrace` | packages/runtime/src/application/ai-context.ts:61-146 | what redaction takes out leaves no trace: requests that it makes alike, message by message and file by file, give the model the same text, and messages that are not among the last thirty-two do not count |
| `AiContext.RenderedTells` | packages/runtime/src/application/ai-context.ts:74 | the roles in the rendered conversation can be told apart, and nothing of a message is lost |
| `DirectoryTracker.Deserialize` | packages/shared/src/command-history.ts:12-34 | the decoder is the escape grammar with a limit on the decoded length and on the input |
| `DirectoryTracker.HexEscapes` | packages/shared/src/command-history.ts:12-34 | every character below 256 can be written in hexadecimal, with letters of either case |
| `DirectoryTracker.TerminalDirectoryTracker.Accept` | packages/runtime/src/application/terminal-directory.ts:34-57 | a complete marker changes the directory only to an absolute one without control characters and within 4,096 |
| `DirectoryTracker.TerminalDirectoryTracker.Receive` | packages/runtime/src/application/terminal-directory.ts:12-32 | a chunk moves the machine character by character |
| `DirectoryTracker.RunConcat` | packages/runtime/src/application/terminal-directory.ts:12-32 | two chunks in a row are one chunk |
| `DirectoryTracker.BodyEndIsFirst` | packages/runtime/src/application/terminal-directory.ts:20-23 | the parsed body of a marker ends at the first terminator |
| `DirectoryTracker.MarkerRun` | packages/runtime/src/application/terminal-directory.ts:14-30 | one complete marker is accepted exactly when it is well formed and fits |
| `DirectoryTracker.OnlineIsWholeStream` | packages/runtime/src/application/terminal-directory.ts:12-57 | the machine's directory is that of a parse of the whole stream |
| `DirectoryTracker.Track` | packages/runtime/src/application/terminal-directory.ts:12-57 | however the stream is cut into chunks, the tracker ends with the directory of the whole stream |
| `DirectoryTracker.MarkerBounded` | packages/runtime/src/application/terminal-directory.ts:28-29 | the retained marker never exceeds a constant |
| `DirectoryTracker.AlwaysProper` | packages/runtime/src/application/terminal-directory.ts:49-57 | whatever the terminal prints, the directory is the one it began with or an absolute one without control characters and within 4,096 |
| `ShellMarkers.EscapeRoundTrip` | packages/runtime/src/application/shell-integration.ts:44-46 | decoding undoes the escape of the hooks, for every value |
| `ShellMarkers.MarkerSetsDirectory` | packages/runtime/src/application/shell-integration.ts:58-60 | the printed marker sets exactly the directory, if and only if it fits the caps |
| `ShellMarkers.UrlMarkerSetsDirectory` | packages/runtime/src/application/terminal-directory.ts:37-57 | a marker of the other kind sets exactly the directory that its URL names, if that is a proper one |
| `ShellMarkers.QuotedReadsBack` | packages/runtime/src/application/connection-service.ts:725-727 | a POSIX shell reads a quoted value back as the value, and goes on with what follows |
| `ShellMarkers.QuotedIsOneWord` | packages/runtime/src/application/shell-integration.ts:34 | both ways of quoting give one word equal to the value |
| `RemoteCopy.Sftp.RemoveTree` | packages/runtime/src/application/sftp-service.ts:397-415 | removal visits each entry once; without a failing request it succeeds exactly when the tree has no more entries than the limit, and success leaves nothing of the tree and all else alone |
| `RemoteCopy.Sftp.RemoveChildren` | packages/runtime/src/application/sftp-service.ts:410-413 | the children of a directory are removed one by one, leaving the directory |
| `RemoteCopy.Sftp.CopyFile` | packages/runtime/src/application/sftp-service.ts:366-376 | a file is created where nothing was, and a failed write is taken back when the removal succeeds; what is left is a function of the answers of the server, and an existing file stays as it is or goes, with nothing else changed |
| `RemoteCopy.ExistingFileLost` | packages/runtime/src/application/sftp-service.ts:371-374 | a copy onto an existing file fails, and its cleanup removes that file |
| `RemoteCopy.Sftp.Rename` | packages/runtime/src/application/sftp-service.ts:130 | a rename relocates a tree to a free place, or changes nothing |
| `RemoteCopy.RelocatedKeeps` | packages/runtime/src/application/sftp-service.ts:130 | a rename loses no entry, changes none and puts no two in one place |
| `RemoteCopy.RelocatedWellFormed` | packages/runtime/src/application/sftp-service.ts:130 | after a rename every entry still lies in a directory |
| `RemoteCopy.Sftp.CopyTree` | packages/runtime/src/application/sftp-service.ts:356-395 | success adds exactly the copy of the tree; failure changes nothing outside the target, and its cleanup never runs out of its own budget; without a failing request a copy to a free place succeeds exactly when the tree has no more entries to visit than the budget, and is taken back otherwise |
| `RemoteCopy.Sftp.CopyEntries` | packages/runtime/src/application/sftp-service.ts:381-390 | the entries are copied one by one into the copy so far; without a failing request all of them are, exactly when the budget is enough |
| `RemoteCopy.EntryGrafted` | packages/runtime/src/application/sftp-service.ts:381-390 | the copy of one more entry extends the copy of those before it |
| `RemoteCopy.LinkSkipped` | packages/runtime/src/application/sftp-service.ts:382 | a link adds nothing |
| `RemoteCopy.FileGraft` | packages/runtime/src/application/sftp-service.ts:366-376 | the copy of a file is one entry |
| `RemoteCopy.Undone` | packages/runtime/src/application/sftp-service.ts:391-394 | taking back a partial copy restores what was there |
| `RemoteOperation.ResolveTarget` | packages/runtime/src/application/sftp-service.ts:326-354 | the place is the requested one, the first free numbered one, none, or the cleared one; renaming is refused only when all 999 names are taken |
| `RemoteOperation.OperateOne` | packages/runtime/src/application/sftp-service.ts:105-132 | one path of a request is copied, moved, left alone or refused as the rules say; when it fails, only the tree at its target may differ; without a failing request it succeeds exactly when the rules find a place and the budget is enough, and leaves no trace otherwise unless it overwrites; a copy leaves its source alone, even when it fails, unless the entry it is to replace holds the source |
| `RemoteOperation.Operate` | packages/runtime/src/application/sftp-service.ts:91-134 | every path is handled once and as the rules ask; a copy changes nothing outside the destination and adds at most 20,000 entries, and a move that overwrites nothing has done just what it says even when it fails; without a failing request it goes on as long as the next path can be handled, and succeeds exactly when all can |
| `RemoteOperation.OwnParentOverwritten` | packages/runtime/src/application/sftp-service.ts:341-346 | a file below an entry of its own name is lost when it is copied or moved up over that entry, though no request fails |
| `RemoteOperation.RequestAdds` | packages/runtime/src/application/sftp-service.ts:335-354 | without overwriting, a copy request leaves all it finds as it was and adds exactly its copies, which never meet what is there |
| `RemoteOperation.RequestMoves` | packages/runtime/src/application/sftp-service.ts:119-131 | without overwriting, a move request loses no entry and changes none: each is found at the end of its trail, and nothing else is there |
| `RemoteOperation.CopyIsTree` | packages/runtime/src/application/sftp-service.ts:366-390 | a copy has an entry at a place exactly when the tree has a file or directory there, with the same content and permissions |
| `RemoteAnswers.RulesDecide` | packages/runtime/src/application/sftp-service.ts:326-354 | the rules leave no choice: links stay, a free name is taken, and a taken one decides by the conflict rule; a name for renaming is the first of the 999 numbered ones that is free |
| `RemoteAnswers.DeedTells` | packages/runtime/src/application/sftp-service.ts:105-132 | each deed of a request, overwriting included, leaves everything alone, adds the tree, puts a copy of the tree in place of another, or moves the tree; nothing else changes, and a special file only clears the way |
| `RemoteAnswers.FileTells` | packages/runtime/src/application/sftp-service.ts:366-376 | one file: only its place can change, success leaves content and permission bits of the source there, and failure leaves nothing unless a directory is in the way or the cleanup fails |
| `RemoteAnswers.CandidateTells` | packages/runtime/src/application/sftp-service.ts:343-350 | a numbered name has its number before the extension; directories have none |
| `RemoteAnswers.CandidateInjective` | packages/runtime/src/application/sftp-service.ts:346-350 | no two numbers give the same name |
| `DataSyncService.DataSync.constructor` | packages/runtime/src/application/data-sync-service.ts:67-79 | the service starts on the rows of an earlier run with what was interrupted marked as failed |
| `DataSyncService.DataSync.BeginExclusive` | packages/runtime/src/application/data-sync-service.ts:362-376 | an operation starts exactly on a free, known and configured profile, and takes its lock |
| `DataSyncService.DataSync.SecretResolved` | packages/runtime/src/application/data-sync-service.ts:378-389 | an aborted operation fails its profile; otherwise the profile is at work and its pending preview is dropped |
| `DataSyncService.DataSync.OperationFailed` | packages/runtime/src/application/data-sync-service.ts:397-409 | a failed operation leaves its profile failed, with no preview pending, and gives up the lock |
| `DataSyncService.DataSync.OperationReturned` | packages/runtime/src/application/data-sync-service.ts:390-405 | the outcome is stored: idle, failed, or a preview that is now pending |
| `DataSyncService.DataSync.OperationReleased` | packages/runtime/src/application/data-sync-service.ts:397-409 | the lock is given up at the end |
| `DataSyncService.DataSync.BeginCommitDownload` | packages/runtime/src/application/data-sync-service.ts:264-268 | only the pending preview can be committed |
| `DataSyncService.DataSync.CommitDownloadReturned` | packages/runtime/src/application/data-sync-service.ts:268-275 | a finished commit makes the profile idle with no preview pending |
| `DataSyncService.DataSync.DeleteProfile` | packages/runtime/src/application/data-sync-service.ts:116-119 | a profile with a running operation cannot be deleted |
| `DataSyncService.DataSync.SetRunState` | packages/runtime/src/adapters/sqlite/sync-profile-repository.ts:167-184 | the state and pending preview of one row change, or nothing does when there is no such row |
| `DataSyncService.DataSync.AbortRunning` | packages/runtime/src/application/data-sync-service.ts:314 | closing aborts every running operation |
| `DataSyncService.DataSync.Take` | packages/runtime/src/application/data-sync-service.ts:263-410 | whatever the order of steps, the object is in the state that the sequence of steps leads to |
| `SyncLock.StepKeeps` | packages/runtime/src/application/data-sync-service.ts:352-410 | every step keeps the invariant, except closing while an operation is in flight |
| `SyncLock.LockProtects` | packages/runtime/src/application/data-sync-service.ts:352-410 | in every orderly run checking and uploading imply the lock, a preview is pending exactly in its state, and operations of one profile never overlap |
| `SyncLock.HeldThroughout` | packages/runtime/src/application/data-sync-service.ts:312-324 | every operation holds its lock throughout a run if and only if no close ends while one is in flight |
| `SyncLock.CloseMidFlight` | packages/runtime/src/application/data-sync-service.ts:312-324 | such a close breaks all three promises |
| `SyncLock.Restart` | packages/runtime/src/application/data-sync-service.ts:76 | the rows of an orderly run are fit for the next start |
| `SyncLock.PreviewForgotten` | packages/runtime/src/application/data-sync-service.ts:263-289 | a pending preview is forgotten exactly by a cancel, a delete, an operation that gets to work or whose result is rejected, or a commit that returns |
| `SyncLock.CommitReturnsLate` | packages/runtime/src/application/data-sync-service.ts:268-274 | a commit that returns late forgets a newer preview that nobody committed or canceled |
| `SyncAnswers.RowTells` | packages/runtime/src/application/data-sync-service.ts:209-410 | the row of a profile goes by its own event and by nothing else: a test, comparison or upload that returns well leaves it idle, a download preview pending under the id just issued, a failure, an abort or a rejected result leaves it failed, and a backup changes nothing |
| `SyncAnswers.RowAppears` | packages/runtime/src/application/data-sync-service.ts:86-91 | a row appears idle when it is created, and in no other way |
| `SyncAnswers.CallTells` | packages/runtime/src/application/data-sync-service.ts:362-410 | a call goes through its phases by its own steps, and is aborted exactly by its timeout, an abort of its profile or a close |
| `SyncAnswers.CallsTell` | packages/runtime/src/application/data-sync-service.ts:362-376 | an operation begins exactly on a profile that is free, known and configured, and a commit exactly for the preview that is pending |
| `SyncAnswers.LockTells` | packages/runtime/src/application/data-sync-service.ts:397-409 | a lock goes exactly with the end of an operation on its profile, or with the end of a close |
| `SyncAnswers.StateTellsLastEvent` | packages/runtime/src/application/data-sync-service.ts:209-410 | in every run a profile shows what the last event that concerned it means |
| `SyncAnswers.FailedExactly` | packages/runtime/src/application/data-sync-service.ts:378-405 | a profile has failed exactly if the last thing that concerned it was a failure, an abort, a rejected result or an interruption of an earlier run, or that run left it failed |
| `SyncAnswers.PreviewsDistinct` | packages/runtime/src/application/data-sync-service.ts:232-250 | in every run no two profiles wait for the same preview |

## Left out

- HostPreview.PreviewJumpProblems: says when there are problems and that they are told to planned hosts, not which hosts are told and in which words; only the absence of problems decides whether an import may go ahead.
- AiService.Service.Take: assumes that a run ends only after the callbacks of its commands have returned or its abort, since the model stream that calls them is foreign code.
- BatchOperationService.ManagedBatchOperation.Advance: assumes that the final block runs only when all workers have returned, as awaiting them guarantees.
- RemoteCopy.Sftp.CopyTree: a copied directory has no permission bits in this model, and a failed change of them is ignored by the program.
- RemoteOperation.Operate: paths are lists of names, so normalizing a path text, including a trailing slash, is not modelled, and a destination reached through a link is refused. Renaming is the standard request, which refuses an existing name (section 6.5 of the SSH File Transfer Protocol, draft-ietf-secsh-filexfer-02).
- ConnectionChain.ImportedHostConnects: takes from the repository that every saved host keeps its rule for jump settings; that updates and deletions of hosts keep it is not part of this model.
- SyncLock.LockProtects: requires stored rows in which only a download preview has a pending id, as every orderly run leaves them.
- DirectoryTracker.TerminalDirectoryTracker.Receive: works on characters; decoding bytes that are split between chunks is the platform's decoder.
- ShellMarkers.QuotedReadsBack: covers POSIX shells, not fish.
- AiContext.BuildAiModelContext: headers of attached files are arbitrary non-empty texts, and byte counts, the system text and the prompt are not modelled.
- Lower-casing by locale, regular expressions, URL parsing and redaction are fields or function parameters.
- Parsing of SSH-config files, Include expansion, granted files and bookmarks created by an import.
- ConfigurationRules.StepAdmitted: the validation of a row by its schema and its service is an arbitrary function of the row; its field bounds are not modelled. The settings are validated once more when they are stored, which is left out.
- ConnectionService.ManagedConnection.LateHandleClosed: whether a close succeeds is not modelled. A handle counts as closed when its close has settled, resolved or rejected; the program does the same next in both cases.
- Which connection profile is the default, and the rules that a trigger service keeps in memory, which a refused import may leave ahead of the stored ones.
- The cache of pending previews, with its lifetime of some minutes and its capacity of four, for both imports.
- Export of configurations, redaction of secrets in snapshots, and files on disk.
- The position of an imported row among its siblings, which the repository assigns by the order of creation; a created row keeps that of its source.
- Hashes, fingerprints and the HMAC of reviews stand for the values they are computed from.
- Plain tool calls, conversations, attachments and context receipts of the AI service.
- Model providers, also where a model reviews a command: a review is an arbitrary input.
- Transports, proxies, host-key checks, keyboard-interactive prompts, the history of connections, and retrying a connection by hand.
- Startup sequences of shells beyond quoting, and the choice of the shell.
- The assessment of command lines, which is a list of independent tests.
- The contents of synced documents, their encryption, comparison and transport, revisions and times, and the automatic timer.
- Reading, writing and permission changes of single remote files.
