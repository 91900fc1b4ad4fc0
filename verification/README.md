# Grid client deployment planner: a verified model

This project models, in Dafny 4.11, the part of the ThreeFold grid client that decides what a deployment run does to
the chain and to the nodes, and the pieces around it that carry state across calls. The theorems are for all inputs,
all runs or all reachable states; where the code does not have a property, the condition under which it has it is
proved both ways, or a family of inputs on which it fails is given.

## What is modelled

- **The planner** (`Models`, `DeployMerge`, `ThreeWayMerge`, `MergePlan`, `ResourceChecks`). Requests are objects that
  share the heap as in the original and are updated in place. Each method is proved against a function on the values
  of the requests, and the laws are proved about those functions.
- **Editing a deployment** (`Revision`, `ConcurrentEdits`). `UpdateDeployment` turns the deployment a node runs into
  the wanted one and stamps versions; `ConcurrentEdits` proves that edits made this way to different workloads of one
  deployment all survive the planner's merge.
- **Execution and compensation** (`ChainState`, `Compensation`, `Handle`, `HandleResults`, `Agreement`, `Undoing`, `Readiness`).
  `handle` from the merged plan on: preparing, submitting in chunks, sending, deleting, waiting, and rolling back. What the chain, the
  nodes and the rest of the world answer are parameters, so the theorems hold for every pattern of failures.
- **The overlay over a lagging indexer** (`Overlay`), as a state machine of chain, indexer, answers under way and local
  lists.
- **Deletion** (`DeleteFilter`): the list of names grows while the machines are scanned.
- **Chain submission** (`Batching`, `Submission`, `SubmissionLock`): chunks, the fold over a block's events, and the
  lock, as interleaved steps.
- **The RMB table** (`RmbTable`): every await of every reader is a point where anything else may happen.
- **Arithmetic and printing** (`Pricing`, `Currency`, `Qsfs`, `SelectionPrinter`, `QueryMerge`).
- `Sequences` and `ObjectKeys` hold what several modules share: facts about sequences, and the order in which a
  JavaScript object lists its keys.

## Where the code does less than one might expect

- `_updateToLatest` depends on the order of its input as soon as two updates conflict
  (`ThreeWayMerge.OrderIndependence`, `ThreeWayMerge.ChangeCanBeLost`).
- `UpdateDeployment` loses additions: the scan for a changed workload stops there, and nothing is added when no old
  workload stays (`Revision.AppliesExactly`, `Revision.AdditionLost`, `Revision.ReplacementLost`).
- `rollback` pops originals against the order in which they were pushed, and the list is never emptied
  (`HandleResults.OwnOriginalExactly`, `HandleResults.AllOwnExactly`); even an update that gets its own original back is
  restored only as far as `UpdateDeployment` can apply it (`Undoing.OriginalRestored`, `Undoing.MiddleUpdateUndone`).
- The create batch is submitted outside the `try`: when a later chunk fails, the contracts of the earlier ones stay
  (`HandleResults.SubmitFailureLeaves`, `HandleResults.FailsCleanExactly`).
- Contracts are matched to requests by a hash that contains neither the node nor the contract
  (`HandleResults.HashFindsFirst`): deployments that hash alike share the first one's contract, and an update that
  hashes like an earlier one is sent to the node of that one's contract (`Agreement.NodesMatchContracts`,
  `Agreement.AlikeUpdateMisses`).
- `waitForDeployment` counts over what the node reports: a report with repeated names can be accepted, and is then
  not a match (`Readiness.AcceptedMatchesExactly`, `Readiness.DuplicatesHideMissing`).
- A deployment with public IPs that `_update` appends behind a plain one changes places with it
  (`DeployMerge.DeploysKeptExactly`, `DeployMerge.SpecialMovesUp`).
- The local test of the overlay is a substring test, the indexer's a prefix test; a fetch by one module can make
  another forget a contract it created (`Overlay.ReliesExactly`, `Overlay.Forgotten`), and an answer that comes back
  after a later one can miss it (`Overlay.OutOfTurnMisses`).
- Log streams of light machines are not found (`DeleteFilter.MachineLogGoesExactly`, `DeleteFilter.LightLogStays`), and
  deleting everything reports machines of uncovered types as deleted (`DeleteFilter.DeleteAllReports`).
- The promise of a batch is settled with the live list of results (`Submission.BatchSeesLater`).
- A pending read whose entry is cleared, whose envelope has expiration 0 or whose response cannot be decrypted or
  parsed stays open for ever (`RmbTable.OpenForeverExactly`).

## Model

| member | source | states |
|---|---|---|
| `DeployMerge.DeployMerge` | packages/grid_client/src/high_level/twinDeploymentHandler.ts:162-190 | run in place on request objects: the list returned and the workloads written are those of `MergeDeploys`, and the results share no deployment |
| `DeployMerge.MergeNormalises` | packages/grid_client/src/high_level/twinDeploymentHandler.ts:162-190 | network and public-IP deployments come out unchanged and in order, at most one plain deployment per node, each node's plain workloads in request order, and a second application changes nothing |
| `DeployMerge.MergeConserves` | packages/grid_client/src/high_level/twinDeploymentHandler.ts:162-190 | the multiset of (node, workload) pairs and the total of public IPs are unchanged |
| `DeployMerge.NormalIsFixed` | packages/grid_client/src/high_level/twinDeploymentHandler.ts:162-190 | any list of special deployments followed by one plain deployment per node in node order is a fixed point |
| `DeployMerge.NonDeploysIgnored` | packages/grid_client/src/high_level/twinDeploymentHandler.ts:166-169 | the result is that for the deployments alone: updates and deletes, wherever they stand in the list, do not change it |
| `DeployMerge.TableExact` | packages/grid_client/src/high_level/twinDeploymentHandler.ts:177-188 | the table keyed by node holds, for each node with plain requests, the first of them extended by the others |
| `DeployMerge.UpdateThenHandle` | packages/grid_client/src/modules/base.ts:874-915 | deployments merged and filtered by `_update` and merged again by `handle` come out as `_update` chose them, whatever updates and deletes stand among them, when it appends no other deployment |
| `DeployMerge.DeploysKeptExactly` | packages/grid_client/src/high_level/twinDeploymentHandler.ts:162-190 | the deployments of any plan come out as they stand if and only if they are in normal form: special ones first, then one plain deployment per node in node order |
| `DeployMerge.SpecialMovesUp` | packages/grid_client/src/modules/base.ts:894-915 | a deployment with public IPs appended behind a plain one is moved in front of it |
| `ThreeWayMerge.UpdateToLatest` | packages/grid_client/src/high_level/twinDeploymentHandler.ts:192-237 | run in place: the first request becomes `Latest` of all; no request gives none |
| `ThreeWayMerge.MergedExact` | packages/grid_client/src/high_level/twinDeploymentHandler.ts:219-230 | a workload is in the merge exactly when it is the first copy of highest version of a kept name |
| `ThreeWayMerge.SurvivesExactly` | packages/grid_client/src/high_level/twinDeploymentHandler.ts:219-230 | for updates from a common base, a name survives iff every update has it or the first update holding it changed it, and the survivor is a copy of highest version |
| `ThreeWayMerge.OrderIndependence` | packages/grid_client/src/high_level/twinDeploymentHandler.ts:192-237 | the merged set is independent of the order of the updates if and only if no name is changed by one and removed by another, or left with two different newest copies |
| `ThreeWayMerge.EveryEditApplies` | packages/grid_client/src/high_level/twinDeploymentHandler.ts:192-237 | without conflict the merge holds the newest copy of every added or changed name and the base copy of every name nobody changed or removed, and nothing else |
| `ThreeWayMerge.ShortcutAgrees` | packages/grid_client/src/high_level/twinDeploymentHandler.ts:196-199 | the one-element shortcut holds the same workloads, each once, as the general loop would give; in the same order unless a name is an array index |
| `ThreeWayMerge.ChangeCanBeLost` | packages/grid_client/src/high_level/twinDeploymentHandler.ts:221-223 | a changed workload is lost or kept depending on which of two other updates comes first |
| `Revision.UpdateDeployment` | packages/grid_client/src/primitives/deployment.ts:36-112 | run in place: the deployment's workloads become `Revised`, and an update is reported exactly when something was removed, changed or added |
| `Revision.Scan` | packages/grid_client/src/primitives/deployment.ts:63-100 | the inner scan: new workloads are taken up to where it stops, which is at the first changed copy |
| `Revision.ReachExact` | packages/grid_client/src/primitives/deployment.ts:54-101 | an index of the wanted list is looked at exactly when some kept workload's scan goes past it |
| `Revision.RevisedMembers` | packages/grid_client/src/primitives/deployment.ts:103-106 | a workload of the result is an edited kept one or a new one that was reached |
| `Revision.NothingElse` | packages/grid_client/src/primitives/deployment.ts:36-112 | every workload of the result was there, as a network or under the name of a wanted network, or carries a wanted workload, with its type or the one it was there with |
| `Revision.AppliesExactly` | packages/grid_client/src/primitives/deployment.ts:36-112 | every wanted workload is in the result if and only if each new one is reached by the scan of a kept one and each other one is there with its type |
| `Revision.VersionsTellEdits` | packages/grid_client/src/primitives/deployment.ts:65-94 | a workload newer than the deployment was changed or added by the edit, or is wanted with another type; any other is as it was |
| `Revision.NotFoundSame` | packages/grid_client/src/primitives/deployment.ts:108-110 | when nothing is found to edit the workloads are as they were |
| `Revision.AdditionLost` | packages/grid_client/src/primitives/deployment.ts:94-99 | what is listed after the only workload, when that one changes, is not added |
| `Revision.ReplacementLost` | packages/grid_client/src/primitives/deployment.ts:58-62 | replacing the only workload by another just removes it |
| `ConcurrentEdits.RevisionsAreEdits` | packages/grid_client/src/primitives/deployment.ts:64-99 | requests made by editing one fetched deployment have the version discipline the three-way merge relies on |
| `ConcurrentEdits.DisjointIsConflictFree` | packages/grid_client/src/high_level/twinDeploymentHandler.ts:192-237 | edits that touch different names do not conflict, so their merge is independent of order |
| `ConcurrentEdits.DisjointEditsAllApply` | packages/grid_client/src/high_level/twinDeploymentHandler.ts:192-237 | edits to different workloads of one deployment are all in the merge, and untouched workloads stay as they were |
| `MergePlan.Merge` | packages/grid_client/src/high_level/twinDeploymentHandler.ts:277-291 | run on objects: deploys as `MergeDeploys`, then the kept updates, then one delete per contract; fails exactly when an updated contract is unknown to the chain |
| `MergePlan.UpdateMerge` | packages/grid_client/src/high_level/twinDeploymentHandler.ts:239-263 | run on objects: one merged update per contract in key order, with the node the chain knows |
| `MergePlan.MergeDelete` | packages/grid_client/src/high_level/twinDeploymentHandler.ts:265-275 | the first delete request of every contract, in order |
| `MergePlan.FirstsAreFirst` | packages/grid_client/src/high_level/twinDeploymentHandler.ts:268-273 | the positions kept are the first of their contract and cover every contract |
| `MergePlan.PlanIsConsistent` | packages/grid_client/src/high_level/twinDeploymentHandler.ts:239-291 | every contract updated or deleted gets exactly one action, delete wins, repeated deletes collapse, and a surviving update raises the version by exactly one |
| `ResourceChecks.CheckFarmIps` | packages/grid_client/src/high_level/twinDeploymentHandler.ts:293-328 | accepts if and only if every farm's summed demand fits its free addresses; otherwise names a farm it does not fit |
| `ResourceChecks.TallyFarms` | packages/grid_client/src/high_level/twinDeploymentHandler.ts:294-314 | the table holds exactly the farms asked for something, with their summed demand |
| `ResourceChecks.AddUp` | packages/grid_client/src/high_level/twinDeploymentHandler.ts:355-377 | the accumulated totals and disk lists are the sums and selections over the workloads |
| `ResourceChecks.CheckNodeCapacity` | packages/grid_client/src/high_level/twinDeploymentHandler.ts:339-394 | the verdict is the node's answer for the totals, then the pools' answer, asked only when there is something to ask |
| `ResourceChecks.TotalsAreDisks` | packages/grid_client/src/high_level/twinDeploymentHandler.ts:361-377 | the SSD and HDD totals are the sums of the disks handed to the storage pools |
| `ResourceChecks.MergeKeepsDemand` | packages/grid_client/src/high_level/twinDeploymentHandler.ts:162-328 | `deployMerge` leaves the demand on every farm unchanged |
| `ResourceChecks.MergeKeepsNeeds` | packages/grid_client/src/high_level/twinDeploymentHandler.ts:162-394 | `deployMerge` leaves the multiset of counted workloads and the totals of every node unchanged |
| `Readiness.WaitForDeployment` | packages/grid_client/src/high_level/twinDeploymentHandler.ts:101-129 | returns at the first poll of the right length that fails or counts full; times out only if there is none |
| `Readiness.CountReady` | packages/grid_client/src/high_level/twinDeploymentHandler.ts:112-122 | counts the reported workloads that are ready for the first target of their name; fails exactly when one of them is in error |
| `Readiness.FullCount` | packages/grid_client/src/high_level/twinDeploymentHandler.ts:112-125 | a full count means every reported workload is ready |
| `Readiness.AcceptedIsMatched` | packages/grid_client/src/high_level/twinDeploymentHandler.ts:101-125 | if the node's names are distinct, a full count means every target is met one to one: same name, same version, state ok |
| `Readiness.MatchedIsAccepted` | packages/grid_client/src/high_level/twinDeploymentHandler.ts:101-125 | if the targets' names are distinct and each is met by a workload of its own, the count is full and nothing fails |
| `Readiness.AcceptedMatchesExactly` | packages/grid_client/src/high_level/twinDeploymentHandler.ts:101-125 | if the targets' names are distinct, an accepted report meets every target one to one if and only if the node reports no name twice |
| `Readiness.AcceptedExactly` | packages/grid_client/src/high_level/twinDeploymentHandler.ts:101-125 | if the targets' names are distinct, a report is accepted and free of repeated names if and only if every target is met one to one |
| `Readiness.DuplicatesHideMissing` | packages/grid_client/src/high_level/twinDeploymentHandler.ts:113-125 | a node that reports one name twice is accepted although a target is missing |
| `ChainState.Submit` | packages/tfchain_client/src/utility.ts:32-47 | `applyAllExtrinsics`: the chain becomes what the landed prefix of the calls makes of it; results are given only if every chunk was accepted |
| `ChainState.WithoutCreates` | packages/tfchain_client/src/contracts.ts:451-464 | a batch without creations removes exactly what it cancels |
| `ChainState.WithoutCancels` | packages/tfchain_client/src/contracts.ts:377-418 | a batch without cancels adds fresh contracts only and removes none |
| `ChainState.ReportedIds` | packages/tfchain_client/src/contracts.ts:377-418 | creations report fresh ids, all of them; updates report the id they name |
| `ChainState.Unnamed` | packages/tfchain_client/src/contracts.ts:377-464 | a contract no call names keeps its value |
| `Compensation.Rollback` | packages/grid_client/src/high_level/twinDeploymentHandler.ts:407-456 | nothing is submitted unless every query and fetch succeeds; then one batch of cancels and updates, as far as accepted; nodes are sent their deployments last |
| `Compensation.PrepareRestoration` | packages/grid_client/src/high_level/twinDeploymentHandler.ts:421-450 | one updated contract: fetched, an original popped, and the edit between them turned into an update |
| `Compensation.BatchCompensates` | packages/grid_client/src/high_level/twinDeploymentHandler.ts:412-450 | the batch cancels exactly the created contracts still live and otherwise updates only updated ones |
| `Compensation.Compensated` | packages/grid_client/src/high_level/twinDeploymentHandler.ts:407-452 | any part of such a batch adds nothing, cancels created contracts only, and leaves all others as they were |
| `Handle.Handle` | packages/grid_client/src/high_level/twinDeploymentHandler.ts:513-624 | by outcome, for contracts, nodes and originals: untouched; left with the landed chunks; rolled back to the live contracts of the start less the deletions made, with every restoration sent; left between the two with the restorations sent so far; or carried through |
| `Handle.Carry` | packages/grid_client/src/high_level/twinDeploymentHandler.ts:562-618 | after the create and update batch every failure is rolled back, and the nodes hold what was sent overlaid with the restorations sent |
| `Handle.Undo` | packages/grid_client/src/high_level/twinDeploymentHandler.ts:618-622 | the catch clause: a successful rollback leaves the starting contracts less those deleted; an unsuccessful one loses no other |
| `Handle.RolledBack` | packages/grid_client/src/high_level/twinDeploymentHandler.ts:407-456 | for any accepted part of the rollback batch: no contract added, none of the starting ones cancelled; for the whole: exactly the starting set less the deletions |
| `Handle.CreatedAreNew` | packages/grid_client/src/high_level/twinDeploymentHandler.ts:554-561 | the contracts listed as created are exactly those the batch added |
| `Handle.DeletesOnly` | packages/grid_client/src/high_level/twinDeploymentHandler.ts:609-615 | any accepted part of the delete batch removes requested contracts only and changes no other |
| `Handle.PreparedSound` | packages/grid_client/src/high_level/twinDeploymentHandler.ts:458-511 | creations and updates contain no cancel, updates name live contracts listed as updated, deletions cancel live contracts |
| `Handle.Prepare` | packages/grid_client/src/high_level/twinDeploymentHandler.ts:539-553 | all extrinsics of the plan are prepared, or none when a name is refused or an updated contract is gone |
| `Handle.SendToNode` | packages/grid_client/src/high_level/twinDeploymentHandler.ts:564-607 | one request: the original fetched from the contract's own node and saved, the contract found by hash, the deployment sent to the node and contract the request then names |
| `Handle.SendPlan` | packages/grid_client/src/high_level/twinDeploymentHandler.ts:563-608 | requests are sent in order until one fails; the originals pushed are those of the requests started |
| `HandleResults.SubmitFailureLeaves` | packages/grid_client/src/high_level/twinDeploymentHandler.ts:554-562 | when the create batch fails half way the chunks that landed stay: all starting contracts live, and the live set unchanged exactly when no creation landed |
| `HandleResults.FailsCleanExactly` | packages/grid_client/src/high_level/twinDeploymentHandler.ts:554-562 | a failing create batch is sure to leave the live contracts as they were, whichever chunk fails, if and only if no creation stands before the last chunk |
| `HandleResults.HashFindsFirst` | packages/grid_client/src/high_level/twinDeploymentHandler.ts:566-605 | for every deployment and update of a merged plan the hash finds the contract of the first request that hashes alike; a deployment takes its id, an update its node; the request goes to its own contract on its own node if and only if a deployment is the first of its hash, an update finds a contract on the same node |
| `HandleResults.MergedPlans` | packages/grid_client/src/high_level/twinDeploymentHandler.ts:277-291 | merged plans list deployments, then updates, then deletes, and update no contract twice |
| `HandleResults.SavedPrefix` | packages/grid_client/src/high_level/twinDeploymentHandler.ts:585-589 | the originals pushed are those of the first updates, in plan order |
| `HandleResults.OwnOriginalExactly` | packages/grid_client/src/high_level/twinDeploymentHandler.ts:421-428 | the `i`-th of the updates gets its own original exactly when it is the middle one of those sent; an update not sent gets a left-over one, if any |
| `HandleResults.AllOwnExactly` | packages/grid_client/src/high_level/twinDeploymentHandler.ts:421-428 | with originals left over from earlier calls below those pushed, all updates get their own if and only if at most one was sent and each that was not finds its own among the left-over ones |
| `Undoing.OriginalRestored` | packages/grid_client/src/high_level/twinDeploymentHandler.ts:421-455 | after a whole rollback the own node of every updated contract runs the original popped for it, whosever it is: each workload of that original is there again if and only if the edit can make it, and nothing else is there; without an original it runs what it ran |
| `Undoing.OtherPlacesStay` | packages/grid_client/src/high_level/twinDeploymentHandler.ts:421-455 | a rollback changes nothing on a node for a contract that is not updated or not its own |
| `Undoing.MiddleUpdateUndone` | packages/grid_client/src/high_level/twinDeploymentHandler.ts:562-622 | when a run that pushed an odd number of originals is rolled back, the middle one's contract, unless deleted, is back on its own node as it ran at the start, as far as the edit can make it, whatever earlier runs left over and whatever else the plan updates |
| `Undoing.SingleUpdateUndone` | packages/grid_client/src/high_level/twinDeploymentHandler.ts:562-622 | the same for the outcome `Undone` of `handle` after a single original was pushed: the first update's contract is back as it ran at the start |
| `Agreement.NodesMatchContracts` | packages/grid_client/src/high_level/twinDeploymentHandler.ts:554-608 | once the batch has landed and a merged plan is sent, every contract deployed or updated carries its request's hash, and its own node runs a deployment with that hash for it if and only if the request reached that node or it ran such a one before; what is not reached stays as it was |
| `Agreement.AlikeUpdateMisses` | packages/grid_client/src/high_level/twinDeploymentHandler.ts:591-605 | of two updates that hash alike for contracts on different nodes the second goes to the first one's node: its own node keeps what it ran while the chain carries the new hash |
| `Agreement.RestoredMatch` | packages/grid_client/src/high_level/twinDeploymentHandler.ts:427-455 | after a whole rollback every restored contract carries the hash of the deployment its own node was sent |
| `Agreement.UpdatedHash` | packages/grid_client/src/high_level/twinDeploymentHandler.ts:435-440 | a contract ends a batch with the hash all its updates carry |
| `Agreement.CreatedStays` | packages/grid_client/src/high_level/twinDeploymentHandler.ts:554-561 | a created contract is what it was created as while no later call names it |
| `DeleteFilter.FilterWorkloads` | packages/grid_client/src/high_level/base.ts:24-99 | run in place on the caller's list of names: results and grown list are those of the specification |
| `DeleteFilter.ScanMachines` | packages/grid_client/src/high_level/base.ts:54-81 | scanning the machines while the list grows gives `Scan` |
| `DeleteFilter.ClosureNames` | packages/grid_client/src/high_level/base.ts:48-83 | the names at the end are the requested ones and everything the reported machines own, for every input |
| `DeleteFilter.ReportedExactly` | packages/grid_client/src/high_level/base.ts:48-83 | the machines reported are exactly the requested ones, full machines first, although the list grows during the scan |
| `DeleteFilter.RemovedExactly` | packages/grid_client/src/high_level/base.ts:24-99 | what goes is the machines asked for and what they own, among covered types; the reported machines are those removed |
| `DeleteFilter.IntegrityExactly` | packages/grid_client/src/high_level/base.ts:24-99 | every machine that stays keeps its disks, public IP and log streams if and only if none is shared with a machine that goes |
| `DeleteFilter.NetworksStay` | packages/grid_client/src/high_level/base.ts:85-89 | network workloads stay, in order, whatever is deleted |
| `DeleteFilter.DeleteAllReports` | packages/grid_client/src/high_level/base.ts:42-46 | with no names, the machines reported are those removed if and only if all their types are covered |
| `DeleteFilter.LogGoesExactly` | packages/grid_client/src/high_level/base.ts:24-99 | a log stream goes if and only if a machine that goes is named in the field where the scan of its type looks, or owns a disk or public IP by the stream's name |
| `DeleteFilter.MachineLogGoesExactly` | packages/grid_client/src/high_level/base.ts:57-74 | the log stream of a machine that goes, naming it in `zmachine`, goes with it if and only if the machine is a full one or something that goes has the stream's name by accident |
| `DeleteFilter.LightLogStays` | packages/grid_client/src/high_level/base.ts:65-74 | the log stream of a light machine without disks is left behind when the machine goes |
| `Overlay.Cache.Save` | packages/grid_client/src/modules/base.ts:154-175 | created node contracts are appended as new entries and deleted ids recorded |
| `Overlay.BaseModule.GetMyContracts` | packages/grid_client/src/modules/base.ts:261-312 | a fetch during whose await nothing else happens lists `Listing` and evicts exactly the entries seen; otherwise the cached list is returned |
| `Overlay.BaseModule.TakeAnswer` | packages/grid_client/src/modules/base.ts:270-309 | what follows the await: the answer is laid under the overlay as it is by then, and exactly the entries seen are evicted |
| `Overlay.ListingExactly` | packages/grid_client/src/modules/base.ts:264-300 | a fetch lists, without repeated ids, exactly the indexer's contracts and matching local creations, less local deletions |
| `Overlay.ListedCopy` | packages/grid_client/src/modules/base.ts:276-292 | the copy listed is the indexer's once it has one, unless the local one is less than a minute old |
| `Overlay.SeenIsCovered` | packages/grid_client/src/modules/base.ts:282-298 | an entry is evicted only when the indexer shows its contract or another entry stands for it |
| `Overlay.EvictMembers` | packages/grid_client/src/modules/base.ts:295-298 | eviction removes exactly the entries seen |
| `Overlay.RunKeepsInv` | packages/grid_client/src/modules/base.ts:147-312 | in every run of chain, indexer, save, ask and answer steps, answers processed at any time and in any order: the overlay stays coherent and every live saved creation is held or was shown by an answer that was processed |
| `Overlay.ReadYourWrites` | packages/grid_client/src/modules/base.ts:147-312 | processing any answer in any run: no repeated ids, deletions never reappear, only contracts saved here or shown by the answer are listed, and a saved creation both filters pass is listed while it lives undeleted, unless a later answer that showed it was processed first |
| `Overlay.SavedListed` | packages/grid_client/src/modules/base.ts:264-300 | a saved creation both filters pass is listed if and only if the answer shows it or the overlay still holds an entry for it |
| `Overlay.ReliesExactly` | packages/grid_client/src/modules/base.ts:261-274 | a module always sees a saved contract while it lives undeleted, in answers processed before any later one, if and only if both the local substring test and the indexer's prefix filter pass it |
| `Overlay.OutOfTurnMisses` | packages/grid_client/src/modules/base.ts:264-298 | for every module and contract there is a run in which an answer processed after a later one misses the live saved contract |
| `Overlay.Forgotten` | packages/grid_client/src/modules/base.ts:289-298 | a run after which the overlay has forgotten a live creation because another module's fetch saw it |
| `Batching.BatchAll` | packages/tfchain_client/src/utility.ts:32-47 | chunks of 400 are applied in order up to the first that fails; on success the results are concatenated in chunk order |
| `Batching.Compact` | packages/tfchain_client/src/utility.ts:33 | absent extrinsics are dropped, the others kept in order |
| `Batching.ChunksArePrefix` | packages/tfchain_client/src/utility.ts:36-37 | the first chunks are a prefix of the calls and hold between 1 and 400 each |
| `Batching.PrefixAtomic` | packages/tfchain_client/src/utility.ts:32-47 | if a chunk fails the applied calls are a proper prefix whose length is a multiple of 400; otherwise they are all of them |
| `Submission.Submission.Fold` | packages/tfchain_client/src/client.ts:349-370 | the loop over the block's events settles as the first deciding event says |
| `Submission.Submission.Callback` | packages/tfchain_client/src/client.ts:339-372 | one status update: an error rejects, an update outside a block is ignored, a settled promise keeps its outcome |
| `Submission.SettlesExactly` | packages/tfchain_client/src/client.ts:349-370 | unless success itself is asked for as a result, the block settles exactly when it has a failure or a success, and rejects exactly when a failure comes before every success |
| `Submission.WantedSuccessNeverSettles` | packages/tfchain_client/src/client.ts:358-364 | when success itself is asked for as a result, only a failure settles |
| `Submission.SuccessSettlesExactly` | packages/tfchain_client/src/client.ts:349-370 | a block in which the extrinsic succeeds settles the promise if and only if the query does not ask for the success event as a result |
| `Submission.BatchSeesLater` | packages/tfchain_client/src/client.ts:362-368 | a batch also sees the results of events after the one that settled it; it sees just the earlier ones exactly when there are no later ones |
| `SubmissionLock.AwaitLock.Acquire` | packages/tfchain_client/src/client.ts:396 | a free lock is taken, otherwise the caller queues |
| `SubmissionLock.AwaitLock.Release` | packages/tfchain_client/src/client.ts:402 | the first of the queue gets the lock, or it becomes free |
| `SubmissionLock.RunKeepsInv` | packages/tfchain_client/src/client.ts:390-406 | in every interleaving callers are done, holding or waiting in the order they called |
| `SubmissionLock.MutualExclusion` | packages/tfchain_client/src/client.ts:390-406 | in every interleaving at most one extrinsic is in flight, callers finish in call order, and the lock is free exactly when every caller is done, however it ended |
| `SubmissionLock.NobodyStranded` | packages/tfchain_client/src/client.ts:396-404 | while somebody waits the holder can go on, and its release starts the longest waiting |
| `RmbTable.RunKeepsInv` | packages/rmb_direct_client/lib/client.ts:90-404 | in every interleaving the table's keys are exactly the uids issued and not removed, a settled reader's uid is gone, a resolved payload was said by a delivered envelope with that uid, verified unless a pong, and a rejection has its reason: an envelope that does not verify, an error envelope, or the time passed |
| `RmbTable.SettledForever` | packages/rmb_direct_client/lib/client.ts:351-404 | whatever happens afterwards a settled reader keeps its outcome and its uid stays out of the table |
| `RmbTable.OpenForeverExactly` | packages/rmb_direct_client/lib/client.ts:351-404 | the next turn of an unsettled reader leaves it open for ever if and only if its entry was gone or never expires, or what it verified cannot be parsed or decrypted |
| `RmbTable.RemovedForever` | packages/rmb_direct_client/lib/client.ts:189-205 | a uid that was removed never returns to the table |
| `RmbTable.UnsolicitedIgnored` | packages/rmb_direct_client/lib/client.ts:108-111 | after any run, an envelope for a uid removed or never issued changes neither table nor readers |
| `RmbTable.ResponseIsRead` | packages/rmb_direct_client/lib/client.ts:356-377 | a reader polling in time resolves with the verified response it found, whatever replaces it meanwhile |
| `RmbTable.TurnedTable` | packages/rmb_direct_client/lib/client.ts:351-404 | a turn of a reader leaves the table alone or takes out its own uid, and does so when it settles |
| `RmbTable.Client.OnMessage` | packages/rmb_direct_client/lib/client.ts:108-111 | an answer replaces the entry of its uid and adds none |
| `RmbTable.Client.DropPingEnvelope` | packages/rmb_direct_client/lib/client.ts:189-194 | exactly the entries still holding a ping are dropped |
| `RmbTable.ReadCall.Resume` | packages/rmb_direct_client/lib/client.ts:356-402 | one stretch between awaits on the object and the shared map is `Turned` |
| `RmbTable.ReadCall.Poll` | packages/rmb_direct_client/lib/client.ts:356-397 | the loop head and body up to the next await is `Polled` |
| `RmbTable.ReadCall.Ends` | packages/rmb_direct_client/lib/client.ts:399-402 | what follows the loop, also after a break, is `Finish` |
| `SelectionPrinter.RoundTrip` | packages/graphql_client/src/clients/abstract_client.ts:103-110 | parsing what is printed for an accepted tree gives the tree back |
| `SelectionPrinter.PrintIsInjective` | packages/graphql_client/src/clients/abstract_client.ts:103-110 | accepted trees with names as keys print alike only if equal, order included |
| `SelectionPrinter.AcceptedExactly` | packages/graphql_client/src/utils/index.ts:11-20 | with names as keys, a tree is accepted if and only if what it prints parses back to it |
| `SelectionPrinter.OtherKeysCollide` | packages/graphql_client/src/clients/abstract_client.ts:106 | a key that is not a name can print like two fields |
| `QueryMerge.Merge` | packages/graphql_client/src/clients/client.ts:40-62 | fails exactly when some query is not accepted; otherwise the options are reduced in order |
| `QueryMerge.PrefixFree` | packages/graphql_client/src/clients/abstract_client.ts:41-46 | an argument name followed by a query name determines both |
| `QueryMerge.OneQuery` | packages/graphql_client/src/clients/abstract_client.ts:17-101 | a single query declares exactly the variables it binds and uses, each once, and each is its own |
| `QueryMerge.MergePreservesBindings` | packages/graphql_client/src/clients/client.ts:46-59 | the merged variables that are a query's are the ones it has by itself, with the same values |
| `QueryMerge.MergeIsConsistent` | packages/graphql_client/src/clients/client.ts:46-59 | each variable of the merge is declared once, declarations and bindings agree, and what a query uses is bound |
| `Pricing.Calculate` | packages/grid_client/src/modules/calculator.ts:194-231 | one pass over the packages for both prices gives the final prices and packages |
| `Pricing.PickPackages` | packages/grid_client/src/modules/calculator.ts:207-216 | the loop ends on the last affordable package for each price |
| `Pricing.EnoughUnits` | packages/grid_client/src/modules/calculator.ts:67-83 | a number of compute units is enough if and only if it covers memory and cores at one of the three ratios |
| `Pricing.LargestAffordable` | packages/grid_client/src/modules/calculator.ts:209-216 | the package picked has the largest discount the balance covers |
| `Pricing.PricesOrdered` | packages/grid_client/src/modules/calculator.ts:67-231 | both final prices are non-decreasing in every resource and non-increasing in the balance, across the package thresholds |
| `Pricing.DedicatedIsCheaper` | packages/grid_client/src/modules/calculator.ts:198-218 | the dedicated price never exceeds the shared one, although each has a package of its own |
| `Pricing.MonthlyOrdered` | packages/grid_client/src/modules/calculator.ts:165-182 | the monthly price is non-negative and non-decreasing in every resource |
| `Currency.ChainIsExactAfterDaily` | packages/grid_client/src/modules/currency.ts:76-111 | the monthly and yearly figures are exact multiples of the daily one |
| `Currency.ChainBounds` | packages/grid_client/src/modules/currency.ts:76-111 | the figures differ from the exact ones by at most 1, 30 and 360 half units of the last decimal |
| `Currency.BoundIsReached` | packages/grid_client/src/modules/currency.ts:76-111 | an amount for which the bounds are attained |
| `Currency.ThereAndBack` | packages/grid_client/src/modules/currency.ts:44-63 | converting to the other currency and back differs by at most e/rate + e |
| `Currency.RoundToNear` | packages/grid_client/src/modules/currency.ts:29-31 | rounding moves an amount by at most half a unit |
| `Qsfs.CreateDeployment` | packages/grid_client/src/modules/qsfs_zdbs.ts:41-75 | fails below three, or for the first zdb whose node has no room; otherwise fresh requests for `count` + 4 zdbs dealt round the nodes |
| `Qsfs.PlacementIsBalanced` | packages/grid_client/src/modules/qsfs_zdbs.ts:53-73 | each node receives the floor of zdbs over nodes, the first ones of the list one more when they do not divide evenly |
| `Qsfs.NamesDiffer` | packages/grid_client/src/modules/qsfs_zdbs.ts:60-61 | no two zdbs share a name |
| `Qsfs.ModesCount` | packages/grid_client/src/modules/qsfs_zdbs.ts:54-57 | of the zdbs dealt, those past the count are user-mode and the others seq-mode |
| `Qsfs.OneDeploymentPerNode` | packages/grid_client/src/high_level/twinDeploymentHandler.ts:162-190 | merging leaves one deployment for each node used, holding exactly the zdbs dealt to it |
| `Qsfs.GetZdbs` | packages/grid_client/src/modules/qsfs_zdbs.ts:154-185 | the zdbs found are split by mode, in order |
| `Qsfs.EverythingIsFound` | packages/grid_client/src/modules/qsfs_zdbs.ts:154-185 | what was dealt, merged and stored comes back as four metadata backends and `count` group backends |

## Left out

- `network.updateWorkload`, `saveNetworks`, `_deleteMachineNetwork` and IP reservation: the network objects keep state of their own; a request only records which network object it carries, and saving the networks is one step that succeeds or fails.
- Revision.UpdateDeployment: is modelled without a network object, so machine addresses are not put back to the old ones; two workloads are taken to have the same challenge only if they agree in everything the challenge lists, and the versions written into the wanted workloads are not modelled.
- Handle.Handle: works on the values of the merged requests instead of the objects `MergePlan.Merge` returns, and starts after KYC, validation and the resource checks, which only refuse; the three lists of result contracts and log events are not modelled.
- DeployMerge.DeployMerge: requests that share a deployment object, or a request listed twice, are not covered.
- MergePlan.UpdateMerge: update requests that share a deployment object, or one listed twice, are not covered.
- MergePlan.Merge: deploy or update requests that share a deployment object, or one listed twice, are not covered; delete requests may.
- Handle.SendToNode: what a node runs for a contract is the version and workloads last sent to it there; signing and the node's own processing are not modelled, and `getDeployment` returns what was sent or fails.
- ChainState.Submit: the chain applies every call it accepts and other accounts do nothing; which chunks are accepted is a parameter. Name contracts are found through a parameter instead of a registry kept by the chain.
- Results of a batch are taken in the order of its calls; per-extrinsic alignment when extrinsics carry different result maps is not claimed, since only the last map of a chunk is used.
- Updates of a request without a contract id use the key `undefined` in the original; the model uses the contract id 0.
- Object keys: a workload named `__proto__`, and integer keys of 4294967295 and above, which JavaScript lists as strings, are not modelled.
- `utility.batch`, which lets the calls before a failing one take effect within a chunk, has the same chunking as `batchAll` and is not modelled separately.
- `SubmissionLock` models callers and their settlement, not time; a submission that never settles keeps the lock, as in the original.
- RmbTable.RunKeepsInv: signature check, decryption and JSON parsing are uninterpreted functions; uids are taken to be unique, and the connection, retries and the ping timer are not modelled.
- Completion of `read` is not claimed: see the last item above the table.
- Overlay.BaseModule.GetMyContracts: backend storage and the parsing of deployment data are not modelled; a contract is listed with its kind and project already parsed.
- `_update` is modelled only as the caller that merges, filters and hands over a plan; how `_updateWithPubIP`, `_updateWithoutPubIP` and the update of networks make the rest of the plan is left out.
- Pricing and Currency: prices and amounts are real numbers and exact decimals; binary floating point is not modelled, nor is the price feed.
- QueryMerge.Merge: the text around names, variables and selections is represented by its parts, and options that overwrite the query's own name are not modelled.
- Qsfs.GetZdbs: namespace, address and port come from the node and are not modelled.
- Validation decorators, key derivation, signing, transport, the Playground and the thin wrappers around queries would add only easy members.
