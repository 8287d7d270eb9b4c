# rdashboard, verified

A Dafny model of the deployment controller of rdashboard and of the protocols around it, with
proofs of what they guarantee over whole runs. `dafny verify dfyconfig.toml` checks everything.

## What is modelled

**The durable controller.** `Domain`, `AttemptLifecycle` and `AttemptInvariants` describe one
attempt: its phase plan, its transition log and the thirteen calls that act on it.
`AdmissionStore` and `AdmissionInvariants` describe the five tables and every interleaving of
interactive and automated admission with those calls. `DurableController` is the controller as an
object whose methods update the tables in place and refine that description.

**The deploy and backup drivers.** `DeployDriver` projects journal entries and replays a journal.
`DeployRuns` treats a drive as atomic steps with crashes between any two and proves that replay
equals the live run and that the installed release is safe. `DeployLoop` is the drive loop itself.
`ProjectionAgreement` relates the drivers' projections to the controller's.

**The fixed-adapter job protocol.** `ResultPublication` is the pending file, hard link and unlink
protocol with any number of processes. `AdapterJobs` is the protocol of start markers, results,
terminal and cleanup receipts.

**Evidence chains.** `ResultChain` holds the linked step results and their validators,
`BackupChain` the backup documents and freshness, `BackupInventory` units and manifests, and
`SortedLists` the sorting both rely on.

**Bounded materialisers.** `CrateArchive` inspects and extracts crate archives, `PayloadBudget`
materialises them under a byte and inode budget, `DockerfileBases` freezes base images.

## Conventions

Digests are free constructors over what is digested, so equal digests mean equal content. A failed
transaction leaves the tables as they were. Identifiers drawn at random, clocks, fetched archives,
executor outcomes and interruption points are parameters or events. Artifact slots are a map from
slot to opaque value; an absent optional and an empty list are both an absent slot. The encoding of
results is any prefix-free function, as canonical JSON (section 3.2 of RFC 8785) is on objects.
Unless a type says otherwise integers are unbounded; where a 32-bit or 64-bit limit decides an
outcome it is written out.

## What turned out not to hold

Where the code does not have a property one would expect, the model follows the code and states
exactly when the property holds.

- A code rollback can never leave preflight: the rule for entering the rollback phase requires the
  phase before it to have crossed the mutation boundary already, and preflight has not
  (`PlanCanFinishUnlessCodeRollback`).
- The controller never produces a result that requires manual recovery, so the recovery branches of
  admission are unreachable (`NoCorruption`).
- The deploy driver does not merge the previous release named by a receipt, the controller does; the
  two agree exactly when at most one is named (`DeployProjectionsAgree`,
  `SecondPreviousReleaseSplitsProjections`, `ReconstructedRecordsSplit`).
- A publisher that stops in the middle of writing the pending file blocks publication for good; this
  is the only way to block it (`PublishableUnlessAbandoned`, `StoppingAbandons`).
- A step whose executor stops between creating the start marker and spawning the unit never runs:
  the marker forbids it for good (`StartedIsNeverRestarted`, `MarkedRunsWhileClaimed`,
  `StoppingLosesTheStep`).
- Verifying a backup manifest does not compare its expected paths with the unit, so a verified
  manifest may leave out any object but the database; constructed manifests cannot
  (`VerifiedMatchesUnitIff`, `VerifiedManifestCanOmitAnObject`, `SampleOmission`).
- A cutover backup can fail after its whole result chain was accepted: validating its spec does not
  ask that it expect the set and epoch of its own backup. A base backup cannot
  (`AcceptedCutoverChainProjectsIff`, `CutoverCanFailLate`, `AcceptedBaseChainProjects`).
- Crate inspection depends on entry order: a directory entry after an entry below it is refused
  (`AcceptedIff`, `OrderMatters`). The checksum file's name can become a directory
  (`ChecksumDirectoryIff`, `ChecksumCanBeADirectory`), and then writing the checksum file fails. The
  second pass uses a tighter stream bound than the first and can stop there
  (`SecondPassExtractsTheInventory`, `SecondPassCanStop`).
- Two checks are redundant: the final search for a file above a file (`InspectedIsTree`) and the
  comparison of clock digests in the freshness check (`RecordedFreshnessStaysCurrentWhile`).

## Model

| member | source | states |
|---|---|---|
| `Domain.RequiredPhases` | src/domain/operation.rs:51-68 | every phase plan starts queued, repeats no phase, never contains reconciliation, contains rollback only for code rollbacks, and once past the mutation boundary stays past it |
| `Domain.MergeFields` | src/controller.rs:1692-1722 | a merge fails exactly when some slot is present on both sides with different values, and otherwise keeps every value of both sides |
| `Domain.SlotBySlotIsAtOnce` | src/controller.rs:1692-1722 | merging any list of slots one after the other, stopping at the first conflict, is merging those slots at once |
| `AttemptLifecycle.ControllerMergesInOrder` | src/controller.rs:1462-1662 | the controller's sequence of slot merges is one merge at once |
| `Domain.MergeSpec` | src/controller.rs:1664-1690 | the spec history only grows, by at most one entry, and keeps one entry per branch and phase |
| `AttemptInvariants.EveryRunKeepsInv` | src/controller.rs:364-808 | after any sequence of calls the log is numbered and chained, no receipt occurs twice, looking back through reconciliation recovers the phase of every receipt, reconciliation and recovery modes are consistent, and the record decodes |
| `AttemptInvariants.CallKeepsInv` | src/controller.rs:364-808 | each of the thirteen calls on an attempt keeps that invariant |
| `AttemptInvariants.AdmittedInv` | src/controller.rs:1382-1439 | a freshly created attempt satisfies it |
| `AttemptInvariants.CommitReceiptKeepsInv` | src/controller.rs:364-406 | committing a phase receipt keeps it, in the primary branch and in rollback recovery |
| `AttemptInvariants.CommitReconciledKeepsInv` | src/controller.rs:408-476 | committing a receipt out of reconciliation keeps it and leaves reconciliation |
| `AttemptInvariants.EnteringReconciliationKeepsInv` | src/controller.rs:478-505 | entering reconciliation keeps it |
| `AttemptInvariants.EnteringRollbackKeepsInv` | src/controller.rs:518-537 | entering rollback recovery keeps it |
| `AttemptInvariants.SamePhaseCallKeepsInv` | src/controller.rs:539-808 | blocking, unblocking, superseding, failing and cancelling keep it |
| `AttemptInvariants.FenceKeepsInv` | src/controller.rs:706-759 | recording a fence acquisition keeps it |
| `AttemptInvariants.LookBackKept` | src/controller.rs:1242-1256 | the one-step look-back finds the phase of every logged receipt after one more transition |
| `AttemptInvariants.MutationTestIsExact` | src/controller.rs:1216-1227 | the scan for a committed mutation finds one exactly when some logged receipt is for a mutation phase |
| `AttemptInvariants.PhaseTestIsExact` | src/controller.rs:1229-1240 | the scan for a committed phase finds it exactly when a receipt for that phase is logged |
| `AttemptInvariants.ReceiptsFollowThePlan` | src/controller.rs:1258-1314 | an attempt never put into rollback recovery has committed exactly the plan up to its current phase, in order, and the whole plan when finished |
| `AttemptInvariants.EarlyEndingsPrecedeMutation` | src/controller.rs:680-808 | no attempt ends failed, cancelled or superseded after a committed receipt for a mutation phase |
| `AttemptInvariants.EndedAttemptsNeverChange` | src/controller.rs:364-808 | an attempt that has ended stays the same record under every later call |
| `AttemptInvariants.EndedCallChangesNothing` | src/controller.rs:364-808 | a single accepted call on an ended attempt returns it unchanged |
| `AttemptInvariants.RolledBackOnlyThroughRecovery` | src/controller.rs:1258-1338 | a deployment is rolled back only with a deployment receipt committed before its last rollback entry and since that entry exactly rollback, health-check and soak receipts, in order |
| `AttemptInvariants.IdentityKept` | src/controller.rs:1784-1842 | no run changes the identity, kind, class, project or source of an attempt |
| `AttemptInvariants.PlanRunsToTheEnd` | src/controller.rs:364-406 | for every kind but code rollback, committing the plan phase by phase is accepted and finishes the attempt |
| `AttemptInvariants.PlanCanFinishUnlessCodeRollback` | src/domain/operation.rs:70-86 | some run finishes an attempt exactly when it is not a code rollback |
| `AttemptInvariants.CodeRollbackNeverLeavesPreflight` | src/domain/operation.rs:70-86 | no run takes a code rollback past preflight |
| `AttemptInvariants.PreflightReceiptRefused` | src/controller.rs:1258-1314 | the receipt that would take a code rollback out of preflight is refused as a forbidden transition |
| `AdmissionInvariants.EveryRunIsSound` | src/controller.rs:143-290 | after any interleaving of takeovers, interactive and automated admissions and attempt calls the five tables are sound |
| `AdmissionInvariants.StepKeepsStoreInv` | src/controller.rs:143-808 | every single call keeps the tables sound |
| `AdmissionInvariants.InteractiveKeepsStoreInv` | src/controller.rs:840-972 | interactive admission keeps numbering, source order, request, grant and delivery tables sound |
| `AdmissionInvariants.AutomationKeepsStoreInv` | src/controller.rs:974-1109 | automated admission keeps them sound |
| `AdmissionInvariants.UpdateKeepsStoreInv` | src/controller.rs:1769-1842 | rewriting one attempt row keeps them sound |
| `AdmissionInvariants.LatestIsLast` | src/controller.rs:1724-1745 | in a numbered table the attempt with the highest number is the last row of its request, and its number is the number of attempts |
| `AdmissionInvariants.NumbersAreOneToN` | src/controller.rs:1111-1115 | the number of every attempt is its place among the attempts of its request, so they count from one to n in order |
| `AdmissionInvariants.AtMostOneLive` | src/controller.rs:878-927 | at most one attempt per request and source sequence is running |
| `AdmissionInvariants.NoCorruption` | src/controller.rs:1001-1087 | neither corruption error of automated admission can occur after any run, and no request ever waits for recovery |
| `AdmissionInvariants.SpentForever` | src/controller.rs:1441-1461 | grant and delivery rows are never removed or replaced |
| `AdmissionInvariants.NonceCreatesOnce` | src/controller.rs:853-876 | in any run each grant nonce creates at most one attempt |
| `AdmissionInvariants.NonceReplayIsIdempotent` | src/controller.rs:853-876 | replaying the nonce that created an attempt changes no table; it is answered exactly when the call passes the operation, grant and lease checks and carries the digest the nonce was spent with, and then with that attempt as it stands |
| `AdmissionInvariants.DeliveryCreatesOnce` | src/controller.rs:974-1023 | in any run each channel and delivery id creates at most one attempt |
| `AdmissionInvariants.AutomationBudgetHolds` | src/controller.rs:1025-1087 | if all admissions are automated under one maximum, no source sequence gets more attempts than that maximum |
| `AdmissionInvariants.TakeoverRevokesForever` | src/controller.rs:143-202 | once a lease is taken over, claims on older generations are refused for the rest of the run |
| `DurableController.DurableController.constructor` | src/controller.rs:135-137 | a new controller has empty, sound tables |
| `DurableController.DurableController.LatestAttempt` | src/controller.rs:1724-1745 | the query returns the attempt of the request with the highest number |
| `DurableController.DurableController.CountAttempts` | src/controller.rs:1747-1767 | the loop counts the attempts of a request under one source sequence |
| `DurableController.DurableController.Takeover` | src/controller.rs:143-202 | the lease table changes as specified, the generation strictly grows, and a refusal changes nothing |
| `DurableController.DurableController.AdmitInteractive` | src/controller.rs:204-215 | refines the specified step and reply, keeps the tables sound and every ended attempt unchanged |
| `DurableController.DurableController.AdmitDeploy` | src/controller.rs:229-252 | the same for deployments with a verified source head |
| `DurableController.DurableController.AdmitInner` | src/controller.rs:840-972 | the transaction itself, refining its specification |
| `DurableController.DurableController.AdmitAutomation` | src/controller.rs:281-290 | the same for automated admissions |
| `DurableController.DurableController.Decide` | src/controller.rs:1025-1087 | the automated decision, counting spent attempts only for a retry |
| `DurableController.DurableController.CommitPhaseReceipt` | src/controller.rs:364-406 | refines the specified step, keeps the tables sound and every ended attempt unchanged |
| `DurableController.DurableController.BeginRollback` | src/controller.rs:518-537 | the same for beginning a rollback |
| `DurableController.DurableController.PersistTransition` | src/controller.rs:1784-1842 | the row is replaced by the specified record with one more log entry, or nothing changes |
| `DurableController.DurableController.CommitReconciledPhaseReceipt` | src/controller.rs:408-476 | the same for a receipt that leaves reconciliation, replayed only if it left it before |
| `DurableController.DurableController.MarkNeedsReconcile` | src/controller.rs:478-505 | the same for entering reconciliation |
| `DurableController.DurableController.SetSourceBlock` | src/controller.rs:539-557 | the same for a source block |
| `DurableController.DurableController.SetStatefulCutoverSourceBlock` | src/controller.rs:559-583 | the same for blocking a stateful cutover on its source |
| `DurableController.DurableController.ClearStatefulCutoverSourceBlock` | src/controller.rs:585-609 | the same for lifting that block |
| `DurableController.DurableController.SetDiskBlock` | src/controller.rs:611-622 | the same for a disk block |
| `DurableController.DurableController.SetPreMutationBlock` | src/controller.rs:624-655 | the transaction both blocks share: refused after a mutation, and an existing block stays unless it is the missing broker |
| `DurableController.DurableController.ClearDiskBlock` | src/controller.rs:657-678 | the same for lifting a disk block |
| `DurableController.DurableController.SupersedeSourceAttempt` | src/controller.rs:680-704 | the same for superseding |
| `DurableController.DurableController.RecordFenceAcquisition` | src/controller.rs:706-759 | the same for a fence acquisition, which does not grow the log; the epoch a replay fills into its reply is always there already |
| `DurableController.DurableController.FailAttempt` | src/controller.rs:761-785 | the same for failing |
| `DurableController.DurableController.CancelBeforeMutation` | src/controller.rs:787-808 | the same for cancelling |
| `DurableController.FirstWithReceipt` | src/controller.rs:418-436 | the first entry found decides whether a receipt left reconciliation |
| `DurableController.FindPhase` | src/controller.rs:1229-1240 | the loop agrees with the specification, and with the receipts actually committed |
| `DurableController.FindMutation` | src/controller.rs:1216-1227 | the loop agrees with the specification, and with the receipts actually committed |
| `DeployDriver.ProjectReceipts` | src/deploy_driver.rs:938-945 | the replay loop over one branch computes the replay function |
| `DeployDriver.ProjectExistingReceipts` | src/deploy_driver.rs:934-970 | replaying primary receipts, takeover and recovery receipts computes the replay function |
| `DeployDriver.CommitRelease` | src/installed_deploy.rs:422-492 | the release is replaced only if it is the one seen when the drive began, by the candidate, with the old release as last known good and the generation one higher |
| `DeployRuns.ReplayExtends` | src/deploy_driver.rs:934-970 | replaying one more stored receipt is replaying the earlier ones and then projecting it |
| `DeployRuns.JournalStands` | src/deploy_driver.rs:934-970 | where a replay ends is determined by how many receipts of each branch are stored and whether there is a takeover |
| `DeployRuns.ReplayAfterReceipt` | src/deploy_driver.rs:601-606 | journalling a receipt and replaying gives exactly what projecting it gives |
| `DeployRuns.ReplayAfterTakeover` | src/deploy_driver.rs:607-626 | journalling the takeover and replaying gives exactly what beginning the rollback gives, which never fails |
| `DeployRuns.EveryRunIsSound` | src/deploy_driver.rs:545-645 | over any drives, crashes and re-drives the live operation equals the replay of the journal and the release is untouched or justified by the receipts |
| `DeployRuns.RestartResumes` | src/deploy_driver.rs:545-596 | a drive stopped anywhere is resumed at exactly the operation it held, or recognised as rolled back |
| `DeployRuns.StopBeforeProjecting` | src/deploy_driver.rs:601-606 | stopping between journalling a receipt and projecting it loses nothing |
| `DeployRuns.ReplayIgnoresReservation` | src/deploy_driver.rs:135-202 | replaying with and without the bound disk reservation stands at the same state |
| `DeployRuns.CandidateOnlyAfterSoak` | src/deploy_driver.rs:639-666 | the release becomes the candidate only when the journal holds the primary soak receipt and no takeover |
| `DeployRuns.ReleaseChangesOnce` | src/deploy_driver.rs:647-666 | the release state changes at most once over any crashes and re-drives |
| `DeployRuns.NothingRunsAfterTheLastReceipt` | src/deploy_driver.rs:556-596 | after the last receipt of either branch no re-drive executes a phase |
| `DeployRuns.ReceiptsAreNeverReplaced` | src/deploy_driver.rs:585-638 | no phase is committed twice and the takeover never changes |
| `DeployRuns.NeverWithoutTerminalReceipt` | src/deploy_driver.rs:749-772 | the error for a release committed without a terminal receipt cannot occur, on a drive or on the terminal check |
| `DeployLoop.DeployJob.constructor` | src/deploy_driver.rs:529-543 | a new job has an empty journal and is sound |
| `DeployLoop.DeployJob.DriveAccepted` | src/deploy_driver.rs:545-645 | the loop is a run of the step machine, ends within three iterations more than the plan has phases, makes none after a terminal receipt, and on success leaves the release as the result says |
| `ProjectionAgreement.DeployProjectionsAgree` | src/deploy_driver.rs:972-1079 | every list of receipts and takeovers the deploy driver accepts is accepted by the controller exactly when at most one previous release is named, and then with the same states, log, specs and recovery mode |
| `ProjectionAgreement.DeployReceiptAgrees` | src/deploy_driver.rs:1007-1079 | on a receipt new to the log the two accept the same, conflicts in the previous release aside |
| `ProjectionAgreement.RollbackGuardAgrees` | src/controller.rs:1316-1338 | whenever the driver may begin its rollback the controller may too, with the same outcome |
| `ProjectionAgreement.DeployedBeforeHealth` | src/controller.rs:1316-1338 | any stored deployment at health check or soak has committed its deployment |
| `DeployDriver.DeployMergeIsRestricted` | src/deploy_driver.rs:1081-1185 | the deploy driver's own sequence of slot merges is the controller's merge restricted to its slots |
| `ProjectionAgreement.BackupMergeIsRestricted` | src/backup_driver.rs:827-885 | the backup driver's own sequence of slot merges is the controller's merge restricted to its slots |
| `ProjectionAgreement.MergeAgrees` | src/deploy_driver.rs:1081-1177 | merging with one slot left out agrees with merging all, conflicts in that slot aside |
| `ProjectionAgreement.BackupTableIsThePlan` | src/backup_driver.rs:793-810 | the backup driver's hard-coded next states are the backup plan |
| `ProjectionAgreement.BackupReceiptAgrees` | src/backup_driver.rs:779-825 | on a receipt new to the log the backup driver and the controller accept the same, conflicts in the source proof aside |
| `ProjectionAgreement.BackupProjectionsAgree` | src/backup_driver.rs:550-610 | every receipt list the backup driver accepts is accepted by the controller with the same states and log |
| `ProjectionAgreement.SecondPreviousReleaseSplitsProjections` | src/deploy_driver.rs:1081-1177 | for every attempt admitted with a previous release and every other one, a receipt list naming the other is carried to success by the driver and refused by the controller |
| `ProjectionAgreement.ReconstructedRecordsSplit` | src/deploy_driver.rs:135-202 | in particular from every record the driver reconstructs with a previous release, with or without its reservation |
| `ResultPublication.StepKeepsSound` | src/adapter_entrypoint.rs:177-252 | with any number of publishers and reconcilers interleaving at each file call, what each process knows about the files stays true |
| `ResultPublication.ReadKeepsSound` | src/adapter_entrypoint.rs:360-395 | the stat, open, stat, read, stat sequence never yields bytes that are not of the named file |
| `ResultPublication.ResultNeverChanges` | src/adapter_entrypoint.rs:206-252 | the result file, once there, holds one authorised document in full and never changes |
| `ResultPublication.PendingStaysUntilPublished` | src/adapter_entrypoint.rs:323-358 | while the result is missing the pending file is never removed or replaced |
| `ResultPublication.SuccessesAgree` | src/adapter_entrypoint.rs:177-252 | any two calls that succeed agree with each other and with the result file |
| `ResultPublication.AbandonedForever` | src/adapter_entrypoint.rs:323-358 | a partial pending file without a writer is never repaired: the result never appears |
| `ResultPublication.PublishableUnlessAbandoned` | src/adapter_entrypoint.rs:177-252 | somebody can still publish exactly when the pending file is not abandoned |
| `ResultPublication.ReconcilerPublishes` | src/adapter_entrypoint.rs:177-196 | a reconciler running alone publishes a complete pending file |
| `ResultPublication.StoppingAbandons` | src/adapter_entrypoint.rs:329-345 | a concrete run: a lone publisher stopped right after creating the pending file abandons it |
| `AdapterJobs.StepKeepsSound` | src/adapter.rs:592-695 | executors and observers interleaving at each file access keep marker, result and receipts consistent |
| `AdapterJobs.SpawnedAtMostOnce` | src/execution_receipt.rs:272-299 | no step is spawned twice, and never without its written start marker |
| `AdapterJobs.SpawnsAreJustified` | src/adapter.rs:626-695 | a unit is spawned only by the process that wrote its marker, holding a validated chain of all earlier results equal to the files |
| `AdapterJobs.StartedIsNeverRestarted` | src/execution_receipt.rs:835-868 | once the start marker exists, complete or not, and no process stands between creating it and spawning, the marker and the spawn count never change again and no process ever stands there again |
| `AdapterJobs.MarkedRunsWhileClaimed` | src/execution_receipt.rs:272-299 | a marked step can still be spawned exactly while some process stands between its marker and its spawn |
| `AdapterJobs.StoppingLosesTheStep` | src/execution_receipt.rs:272-299 | a concrete run: an executor stopped right after creating the first marker leaves the step marked, never spawned and never to be spawned |
| `AdapterJobs.ProjectionNeedsEvidence` | src/adapter.rs:239-280 | a projection exists only if every step was spawned once and has a succeeded terminal receipt and a complete cleanup receipt bound to it |
| `AdapterJobs.ProjectionsAgree` | src/adapter_phase.rs:110-172 | all projections of a run are the same |
| `AdapterJobs.NothingSpawnsAfterProjection` | src/adapter_phase.rs:110-146 | once a projection exists nothing is spawned |
| `AdapterJobs.LaterRunsFollow` | src/adapter_phase.rs:110-172 | every later observation or execution, unless stopped, reads the same results on its way to the same projection |
| `AdapterJobs.LaterRunsReachTheProjection` | src/adapter_phase.rs:110-172 | a process started after a projection exists, unless stopped, has reached that same projection after five of its own file accesses per step |
| `AdapterJobs.OnTrackStep` | src/adapter_phase.rs:149-172 | each of its file accesses brings it closer to that projection |
| `ResultChain.ValidatePriorResults` | src/adapter_result.rs:478-513 | the loop that looks back at its neighbour and stops at the first refusal accepts exactly the chains whose every element is authorised against its own prefix |
| `ResultChain.SinglePassIsPrefixwise` | src/adapter_result.rs:478-513 | the same of the pass as a recursion: neighbour look-back and authorisation against the last of the prefix agree, for every list and sequence number |
| `ResultChain.ValidateCompleteResultChain` | src/adapter_result.rs:515-528 | the loop that starts over at every element accepts exactly what one pass over the whole list accepts |
| `ResultChain.CompleteIsOnePass` | src/adapter_result.rs:515-528 | the validator of complete chains accepts exactly what one pass over the whole list accepts |
| `ResultChain.TimesNeverGoBack` | src/adapter_result.rs:408-435 | times never go back along an accepted chain and stay in the request's window |
| `ResultChain.FinalDigestDeterminesChain` | src/adapter_result.rs:437-457 | two accepted complete chains with the same last digest are equal |
| `ResultChain.AcceptedBaseChainProjects` | src/adapter_result.rs:530-573 | every accepted complete base-backup chain projects into a verified backup chain; nothing fails late |
| `ResultChain.AcceptedCutoverChainProjectsIff` | src/adapter_result.rs:530-573 | an accepted complete cutover chain projects exactly when the spec expects the backup set and fencing epoch of its own backup, and then into a verified chain |
| `ResultChain.CutoverCanFailLate` | src/phase6.rs:3139-3210 | beside every accepted cutover chain there is another, differing in the expected backup set only, that is accepted and does not project |
| `BackupChain.BaseChainIff` | src/backup.rs:1055-1078 | a base chain is returned exactly for a valid base spec whose local, upload and offsite documents all verify, and holds just these documents under their digest |
| `BackupChain.CutoverChainIff` | src/backup.rs:1080-1101 | a cutover chain is returned exactly for a valid cutover spec whose local document verifies, and holds just that |
| `BackupChain.VerifiedChainsAreConstructed` | src/backup.rs:1055-1101 | rebuilding a verified chain from its own documents gives it back |
| `BackupChain.LastDocumentDeterminesChain` | src/backup.rs:1103-1128 | each document names the one before it, so the last one alone, offsite for a base chain and local for a cutover chain, fixes every document of a verified chain |
| `BackupChain.BaseChainTimesInOrder` | src/backup.rs:722-1008 | started, completed, encrypted, uploaded, verified and deadline are in order in every verified base chain |
| `BackupChain.CutoverChainTimesInOrder` | src/backup.rs:1510-1530 | started, completed, encrypted and deadline are in order in every verified cutover chain |
| `BackupChain.ChainDigestDeterminesDocuments` | src/backup.rs:1103-1128 | verified chains with the same digest are the same documents |
| `BackupChain.Elapsed` | src/backup.rs:1444-1452 | the checked subtraction succeeds exactly for ordered non-negative times, so 64-bit overflow never decides it |
| `BackupChain.CurrentMeansFresh` | src/backup.rs:1343-1398 | an accepted freshness check gives verified, evaluated, clock observation, boundary and observation plus thirty seconds in order, and an age within the maximum of at most a day |
| `BackupChain.RecordedFreshnessStaysCurrentWhile` | src/backup.rs:1307-1365 | freshness recorded by the constructor is accepted later exactly while a newer synchronised clock and the age allow |
| `SortedLists.SortInPlace` | src/backup.rs:1669-1675 | the in-place sort is the stable sort and leaves the list sorted by key |
| `SortedLists.NeighboursSuffice` | src/backup.rs:1661-1675 | in a sorted list comparing neighbours finds every duplicate |
| `SortedLists.NeighboursTellDuplicates` | src/backup.rs:1661-1675 | after sorting, equal neighbours exist exactly when the list had two elements with one key |
| `SortedLists.StrictlySortedIsUnique` | src/backup.rs:1677-1700 | strictly sorted lists with the same keys agree index by index |
| `SortedLists.SortIgnoresOrder` | src/backup.rs:1625-1675 | without duplicate keys, permutations sort to the same list |
| `BackupInventory.NewUnit` | src/backup.rs:146-187 | an accepted unit is strictly sorted and lists exactly what it was given |
| `BackupInventory.NewManifest` | src/backup.rs:482-529 | an accepted manifest verifies against its spec |
| `BackupInventory.InventoryDifferences` | src/backup.rs:1677-1700 | each difference is sorted, lists each path once and exactly the paths the other side lacks; both are empty exactly when expected and captured paths are the same set |
| `BackupInventory.ConstructedMatchesUnit` | src/backup.rs:482-529 | for any input order a constructed manifest matches its unit index by index, with one link each, and lists exactly what it was given |
| `BackupInventory.ManifestIgnoresOrder` | src/backup.rs:482-529 | reordering the reported objects and checks does not change the manifest |
| `BackupInventory.VerifiedMatchesUnitIff` | src/backup.rs:531-556 | a verified manifest matches its unit exactly when its expected paths are the unit's |
| `BackupInventory.VerifiedManifestCanOmitAnObject` | src/backup.rs:531-556 | leaving out any object but the database, with its expected path, still verifies |
| `BackupInventory.SampleOmission` | src/backup.rs:531-556 | a concrete verified manifest that omits an object its unit expects |
| `CrateArchive.InsertParents` | src/cargo_prefetch.rs:829-846 | the walk up adds every ancestor, and fails exactly when one of them is a file |
| `CrateArchive.InspectArchive` | src/cargo_prefetch.rs:484-582 | the first pass computes the inventory function and only accepts well-formed trees within the bounds |
| `CrateArchive.InspectedIsTree` | src/cargo_prefetch.rs:484-582 | for any entry order an accepted inventory lists every ancestor as a directory, keeps files and directories apart, and has no file above another |
| `CrateArchive.AcceptedIff` | src/cargo_prefetch.rs:484-582 | an archive is accepted exactly when its entries are fine alone and pairwise in stream order, one is a file, and the directories and files they describe fit the bounds together with the stream; the inventory is then just what they describe |
| `CrateArchive.ChecksumDirectoryIff` | src/cargo_prefetch.rs:520-530 | the reserved checksum name is never a file, and is a directory exactly when an entry lies below it |
| `CrateArchive.ListDirectories` | src/cargo_prefetch.rs:570-580 | the listing holds exactly the directories, sorted by depth |
| `CrateArchive.ParentsComeFirst` | src/cargo_prefetch.rs:468-475 | in the listing every directory comes after all of its ancestors |
| `CrateArchive.SecondPassExtractsTheInventory` | src/cargo_prefetch.rs:584-659 | a second pass over the same bytes never reports a changed archive: it extracts exactly the inventory's files, or stops at the tighter stream bound when the stream does not fit it |
| `CrateArchive.OrderMatters` | src/cargo_prefetch.rs:523-530 | the same two entries are accepted in one order and refused in the other |
| `CrateArchive.SecondPassCanStop` | src/cargo_prefetch.rs:597-614 | a concrete archive accepted by the first pass on which the second stops at its bound |
| `CrateArchive.ChecksumCanBeADirectory` | src/cargo_prefetch.rs:520-530 | a concrete accepted archive that turns the checksum name into a directory |
| `PayloadBudget.Payload.constructor` | src/cargo_prefetch.rs:379-386 | a new budget is within its limits with nothing on disk |
| `PayloadBudget.Payload.Consume` | src/cargo_prefetch.rs:388-403 | reservation succeeds exactly when it fits and changes nothing otherwise |
| `PayloadBudget.Payload.CopyFile` | src/cargo_prefetch.rs:707-751 | a file is created only below existing directories; at every point at most the expected bytes are written, and on success exactly those |
| `PayloadBudget.Payload.ExtractFiles` | src/cargo_prefetch.rs:584-659 | whatever the entries are, the files written stay within the inventory; success means the second pass succeeds and all of it is written, and undisturbed the two succeed together |
| `PayloadBudget.Payload.MaterializeCrate` | src/cargo_prefetch.rs:426-482 | disk never exceeds the budget, and on success exactly what was reserved for the inventory is on disk; undisturbed it succeeds exactly when the crate inspects, fits with its checksum file, extracts, and leaves the checksum name free |
| `PayloadBudget.Payload.MaterializeNext` | src/cargo_prefetch.rs:271-328 | one crate more: fetched within the limits and materialised, consuming what the accounting of the crates says |
| `PayloadBudget.Payload.Materialize` | src/cargo_prefetch.rs:271-328 | for any package list, failure or cancellation, disk stays within consumed and consumed within the limits; on success disk equals consumed equals the accounting, and undisturbed it succeeds exactly when that accounting has room for every crate |
| `PayloadBudget.Payload.CreateDirectories` | src/cargo_prefetch.rs:468-475 | the inventory's directories are created within the reserved inodes, each only when all its parents are there; at every point the created ones are closed under parents, and on success they are the inventory's |
| `DockerfileBases.ValidComponent` | src/build.rs:2976-3020 | the scanner accepts exactly the path components of the OCI Distribution Specification of up to 128 bytes |
| `DockerfileBases.ReferenceIff` | src/build.rs:2883-2930 | a reference is accepted exactly when written as an optional explicit registry, path components of the OCI Distribution Specification, an optional tag and a canonical digest, from a public registry; it means that registry, or docker.io, and that digest |
| `DockerfileBases.InspectDockerfile` | src/build.rs:2583-2650 | the loop over FROM instructions computes the walk function |
| `DockerfileBases.FreezeIff` | src/build.rs:856-931 | freezing succeeds exactly when there is a FROM, each is well formed, pinned unless scratch or an earlier stage, and introduces new names only, and the resolved bases are valid, allowed, one per stage and in any order just the external images; the result is those bases sorted by stage |
| `DockerfileBases.EveryFromIsAccountedFor` | src/build.rs:856-931 | every FROM of an accepted Dockerfile is scratch, an earlier stage, or a pinned reference from an allowed registry that occurs exactly once in the frozen bases under its own stage |
| `DockerfileBases.EveryFrozenBaseIsWanted` | src/build.rs:920-931 | the frozen bases contain nothing else |
| `DockerfileBases.StageNamesAreDistinct` | src/build.rs:2652-2706 | no two stages of an accepted Dockerfile share a name |

## Left out

- SQL text, JSON columns, SHA-256, signatures, CBOR and canonical-JSON bytes: tables, atomic transactions and free digests instead.
- systemd arguments, process polling, cgroup accounting, permissions, owners and disk measurement: input and output only.
- The stateful paths of the executor and the security store's own tables: the journal they keep is modelled, not how they keep it.
- An executor error after a committed health-check or soak receipt: for code-only deployments the executor returns none (src/executor.rs:830-838), and the model has none.
- Reconciliation entered from the rollback branch: the transition is modelled; no plan order is claimed for it.
- `drive_pending_deploy_jobs_until`, candidate loading, phase-spec building and policy binding checks: single-guard field comparisons.
- Operation identities of adapter steps, termination intents and process classification: they do not decide whether a step may run.
- Inode-number reuse: in the publication model inode numbers are never reused.
- Document schema versions, which are all fixed.
- The step tables of phases other than backups: result chains are proved for any steps.
- UTF-8 and component decoding of archive paths: entries come decoded, and a path is limited to 4096 components rather than bytes.
- Where inside an archive entry the stream bound strikes: it is checked once per entry and once at the end.
- RUN and COPY checks, logical lines and parser directives of Dockerfiles, generated files and source bindings of a frozen context: long but shallow.
- Which hosts are public registries: a parameter of reference parsing, not the host syntax.
- AdapterJobs.StepKeepsSound: result files appear complete, because `ResultPublication` proves that they do.
