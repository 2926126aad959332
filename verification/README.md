# Caravanserai: what the agent and the record may rely on

This project models the parts of Caravanserai that keep evidence over long
runs, and proves what that evidence is worth. Each part is a small state machine
or an index whose safety depends on several functions, and on where a run may
fail or crash.

| Part | Files | Main results |
|---|---|---|
| WAL-continuity latch and backup type | `Continuity`, `BackupChoice`, `ContinuityRuns`, `PgBackupRunner`, `PgBackupRuns` | a differential is chosen only if the container logged no dropped WAL since the Check of the last accepted full (`DifferentialIsSafe`) |
| pgBackRest repo host | `ServerConf`, `RepoHostRuns`, `RepoHost` | a text search finds exactly the authorized UIDs (`SearchIsExact`); a confirmed UID is never missed while a server serves it, at any crash point (`SearchNeverMissesASafeUID`) |
| Assignment, release, cleanup, finalization | `ProjectStatus`, `AssignmentRuns`, `Coordinator`, `Cleanup` | the record outlives every resource (`RecordOutlivesResources`); no unauthorized overlap (`OnlyAuthorizedOverlap`); evidence is reported only after an empty read (`RunCleanupTask`, `TerminateOne`) |
| Offline backup and retention | `BackupStore`, `Retention`, `OfflineBackup` | every manifest names archives that are there, and the committed backup has one (`EveryManifestIsComplete`); what pruning keeps and deletes (`PruningIsConservative`, `PruningIsThorough`) |
| Docker | `Docker`, `DockerSpec`, `DockerEnsure`, `DockerUpdate`, `DockerReconcile`, `DockerRecovery`, `DockerRemoval` | updates converge from any state (`UpdateServices`, `InterruptedUpdatesAreResumed`); every operation stays within its account (`OperationStaysWithin`); removal and the check that follows agree (`RemovedHoldsNothing`), in any order (`OrderDoesNotMatter`) |
| Smaller cores | `Orphans`, `OrphanRuns`, `Recovery`, `SpecUpdateRuns`, `Routes`, `Quantity`, `SpecChange`, `Text` | grace periods, bounded attempts, two maps that agree, round trips, conservation |

## How the model is built

- Code that changes things step by step is a class or a method, proved against a
  function or relation on values; code that only computes is a function.
- A call into Docker, the object store, the file system, the server or another
  process may fail at will, and a call that failed may have taken effect.
- `RepoHost`, `OfflineBackup` and `Docker` log every effect, one at a time, and the
  log is part of the class's validity: since it is a run of the state machine at
  every point, so is what a crash leaves, and what is proved of every run holds of
  the methods' own.
- The latch keeps no log. What a backup run leaves of each database's latch is
  stated by `PgBackupRunner.Runner.Run`, and `PgBackupRuns` proves that it is what a
  history of `ContinuityRuns` leaves: the start of a run, whatever the log does, and
  an acceptance or a failure.
- `AssignmentRuns` is the record's state machine alone. Its steps that confirm a
  removal take for granted what `Cleanup` proves of the agent, that a report follows
  an empty read; the two are not one run.
- Time is an integer number of seconds. Hashes are injective. Goroutines are
  interleaved steps.

A daemon in `Docker` is `quiet` when nobody else acts on it. Results that say what
an operation leaves (`Converged`, `Removed`) are for a quiet daemon; results that
say what it does not do hold with others making, stopping and removing containers
between any two calls.

## Where the code is weaker than its comments

The code is modelled as it is. Where a comment or message promises more, a lemma
gives an input on which it fails, and another says exactly when it holds.

- While the latch's cursor is 0, `continues` accepts any log: lines lost under it
  are not noticed. `CursorZeroCanMissAGap`, and `CursorZeroIsRightExactlyWhen`.
- A lost latch file restarts the version, so a full that started before can clear
  the new latch: `LosingTheFileCanMissAGap`, and `LosingTheFileIsSafeExactlyWhen`.
- An authorization loaded by the server but never confirmed can vanish from both
  recorded copies: `AnUnconfirmedAuthorizationCanBeLost`, and
  `SearchIsReliableExactlyWhen`.
- The search of `servesUID` would mistake a UID that holds an equals sign for the
  part before it: `EqualsSignIsMistaken`, and `SearchIsRightExactlyWhen`. UIDs are
  UUIDs (internal/store/postgres/store.go:62), so this input does not arise.
- A reappeared orphan whose reconcile fails keeps its old clock, so "continuously
  confirmed" (internal/agent/orphan.go:253) is not always so:
  `AFailedReturnKeepsTheClock`, and `LossIsContinuousExactlyWhen`.
- Recovery promises to create no volume. Its preflight looks for the volumes of the
  current spec, but a stopped container of an earlier spec is started as it is, and
  Docker makes what that one mounts: `StartingAnOutdatedContainerCanMakeAVolume`, and
  `StartMakesAVolumeExactlyWhen`. `RecoverServices` makes one exactly then.
- A host two projects ask for is lost for both with the first to go:
  `ASharedHostIsLost`, and `OthersRoutesSurviveExactlyWhen`.

## What is assumed

- The latch: log lines are distinct, and a log loses lines only from its front.
  Reads of the log are complete, and a timeline has eight characters.
- The repo host: a delivered HUP makes the server load the file or stop answering
  pings; a stopped server is started by nobody but the agent; UIDs hold no equals
  sign or newline and are not the placeholder.
- Assignments: an agent starts nothing for an assignment it has confirmed removed,
  and reports removed only what it has confirmed. `Cleanup` proves the second.
- Cleanup: what a kind says is left is exactly what is left. Of the kinds there are,
  the repo host's answer is so for a UID that was confirmed or idle
  (`RepoHost.Remaining`), Docker's is (`DockerRemoval.AssignmentRemaining`), and the
  proxy's is always that nothing is left (internal/agent/cleanup.go:113).
- Spec updates: the revisions read of a Project never go back.
- Offline backups: backup IDs are fresh and a Project's volumes distinct.
- Docker: nobody but the agent changes the networks and volumes of this daemon
  during an operation, and a container's labels never change. While an agent holds
  a Project's claim it starts nothing for it elsewhere (`Cleanup`).

## Model

| member | source | states |
|---|---|---|
| Continuity.ObservationOnlyLatches | internal/agent/pgbackup/continuity.go:104-147 | an observation never clears a latch, never lowers the version, and saves no version zero |
| Continuity.OnlyTheMatchingFullClears | internal/agent/pgbackup/continuity.go:87-101 | an accepted full clears the latch if and only if nothing made continuity unknown since its Check and both writes were made |
| Continuity.FileContinuity.FindGap | internal/agent/pgbackup/continuity.go:130-137 | true exactly when one of the lines holds the dropped-WAL warning |
| Continuity.FileContinuity.Save | internal/agent/pgbackup/continuity.go:189-218 | a write that failed may have replaced the file; no other file changes |
| Continuity.FileContinuity.Observe | internal/agent/pgbackup/continuity.go:107-147 | the in-place observation leaves the specified latch on disk, and no other file changed |
| Continuity.FileContinuity.Check | internal/agent/pgbackup/continuity.go:75-85 | answer, version and error as specified, and known only from a durable write |
| Continuity.FileContinuity.FullAccepted | internal/agent/pgbackup/continuity.go:89-101 | clears exactly when specified, with every outcome of the two writes |
| BackupChoice.FindNewestFull | internal/agent/pgbackup/info.go:75-82 | the last full in the listing, or none when there is none |
| BackupChoice.DifferentialExactlyWhen | internal/agent/pgbackup/info.go:93-107 | the differential is chosen if and only if continuity is known and the last full is young enough and on the timeline |
| BackupChoice.NewBackup | internal/agent/pgbackup/runner.go:240-251 | the last backup of the type that is listed after and was not before, and none exactly when there is no such |
| ContinuityRuns.RunKeeps | internal/agent/pgbackup/continuity.go:75-168 | the invariant tying latch, cursor, log and the full under way holds over every history |
| ContinuityRuns.DifferentialIsSafe | internal/agent/pgbackup/runner.go:124-152 | over every history in which the latch survives, a differential means no dropped-WAL line since the Check of the last accepted full |
| ContinuityRuns.InvIsSafe | internal/agent/pgbackup/runner.go:124-152 | from every state with the invariant, whatever happens next, no differential is wrong |
| ContinuityRuns.CursorZeroIsRightExactlyWhen | internal/agent/pgbackup/continuity.go:164-166 | with a zero cursor the report is right if and only if no line lost was a warning |
| ContinuityRuns.CursorZeroCanMissAGap | internal/agent/pgbackup/continuity.go:164-166 | a history in which a gap is missed |
| ContinuityRuns.LosingTheFileCanMissAGap | internal/agent/pgbackup/continuity.go:151-157 | a history in which losing the file lets an earlier full clear a later gap, and the next run chooses the differential |
| ContinuityRuns.LosingTheFileIsSafeExactlyWhen | internal/agent/pgbackup/continuity.go:89-157 | a file lost under a full is harmless for every later run if and only if that full does not clear the latch that replaces it, or no dropped-WAL line was logged since its Check |
| ContinuityRuns.ClearedExactlyWhen | internal/agent/pgbackup/continuity.go:89-157 | the full clears the new latch exactly when the log is read, both writes are made, and its version is 1, or 2 with a warning in view |
| ContinuityRuns.OnlyLostLinesMatterAtVersionOne | internal/agent/pgbackup/continuity.go:123-148 | at version 1 such a clear is wrong exactly if a line lost since the Check was a warning; at version 2 also if one in view is new |
| ContinuityRuns.LosingTheFileUnderWay | internal/agent/pgbackup/continuity.go:175-185 | any state a full is under way in, with its file gone or unreadable, is covered |
| ContinuityRuns.AnAcceptedFullRestoresContinuity | internal/agent/pgbackup/continuity.go:87-101 | the latch does clear: after an accepted full over a clean log, Check reports continuity known at the same version |
| PgBackupRunner.Runner.BackupOne | internal/agent/pgbackup/runner.go:185-236 | the type chosen is the one the Check of this database allows, at the version returned; the backup is newly listed; the latch was only observed |
| PgBackupRunner.Runner.Run | internal/agent/pgbackup/runner.go:102-155 | nothing is cleared unless every database succeeded and the server accepted, and then only for databases with a full, at the version its own Check returned; each latch ends exactly as its Check, and the acceptance of its full, leave it |
| PgBackupRunner.Runner.MarkEach | internal/agent/pgbackup/runner.go:143-152 | marks each accepted full at its own version, and no other latch changes |
| PgBackupRuns.AcceptedRunIsAHistory | internal/agent/pgbackup/runner.go:120-155 | an accepted run leaves of each latch what the history of its Check, whatever the log does, and the acceptance leaves |
| PgBackupRuns.FailedRunIsAHistory | internal/agent/pgbackup/runner.go:120-141 | a run that fails or is refused leaves what the Check did |
| PgBackupRuns.ADifferentialTakenIsSafe | internal/agent/pgbackup/runner.go:185-236 | a differential the agent takes means no dropped-WAL line since the Check of the last accepted full |
| PgBackupRunner.CheckOnlyLatches | internal/agent/pgbackup/continuity.go:75-85 | a Check can set a latch and raise its version, never the reverse, and a latch it leaves clear has kept its version |
| PgBackupRunner.AcceptingKeepsVersions | internal/agent/pgbackup/continuity.go:89-101 | marking an accepted full keeps versions positive |
| PgBackupRunner.AcceptingClearsOnlyAt | internal/agent/pgbackup/continuity.go:89-101 | a latch found clear after an accepted full was clear before, or is at that full's version |
| PgBackupRunner.Runner.BackupEach | internal/agent/pgbackup/runner.go:120-134 | each database's version is the one its own Check returned; no latch is cleared |
| ServerConf.RenderServerConfig | internal/agent/pgbackrest/serverconf.go:57-115 | the text built line by line is the specified one, refused exactly for an endpoint that is not HTTPS |
| ServerConf.RenderDependsOnPermissionsOnly | internal/agent/pgbackrest/serverconf.go:78-91 | map order and repeated stanzas do not show in the bytes |
| ServerConf.SearchFindsLineStarts | internal/agent/pgbackrest/repohost.go:279-293 | the substring search holds exactly when some line starts with the mark |
| ServerConf.SearchIsExact | internal/agent/pgbackrest/repohost.go:279-293 | the search is true if and only if the UID has a stanza, or is the placeholder when nobody has |
| ServerConf.SearchFinds | internal/agent/pgbackrest/repohost.go:279-293 | what the search finds for any map: the UID, or one that goes on after it with an equals sign |
| ServerConf.SearchIsRightExactlyWhen | internal/agent/pgbackrest/repohost.go:279-293 | the search is right if and only if the UID has a stanza, or no UID with one goes on after it with an equals sign |
| ServerConf.EqualsSignIsMistaken | internal/agent/pgbackrest/repohost.go:279-293 | a UID with an equals sign is found under the part before it |
| RepoHostRuns.StepKeepsSafe | internal/agent/pgbackrest/repohost.go:365-485 | every single effect keeps a UID confirmed, or neither served nor loadable |
| RepoHostRuns.LeavesOnlyWhenUnserved | internal/agent/pgbackrest/repohost.go:404-426 | a confirmed UID leaves the confirmed copy only when no running server has it loaded and it is no longer desired |
| RepoHostRuns.SearchNeverMissesASafeUID | internal/agent/pgbackrest/repohost.go:189-333 | over every run and crash, a served UID is found by the search Revoke and Remaining use, and where it finds nothing nothing is left |
| RepoHostRuns.AnUnconfirmedAuthorizationCanBeLost | internal/agent/pgbackrest/repohost.go:457-466 | a run of seven effects after which the server serves a UID neither copy holds |
| RepoHostRuns.SearchIsReliableExactlyWhen | internal/agent/pgbackrest/repohost.go:189-333 | over every run from a state, a UID is found while it is served if and only if it is confirmed there, or neither served nor in anything a server could load |
| RepoHostRuns.AuthorizedIsReliableExactlyIfConfirmed | internal/agent/pgbackrest/repohost.go:189-333 | for an authorized UID that is whether the confirmed copy holds it, which a caller can read |
| RepoHost.RepoHost.WriteConfig | internal/agent/pgbackrest/repohost.go:529-540 | the file may be ahead of the record after a failure, never behind it on success |
| RepoHost.RepoHost.Recover | internal/agent/pgbackrest/repohost.go:457-485 | keeps the desired and confirmed copies, and on success a server that runs has loaded the file put back |
| RepoHost.RepoHost.Apply | internal/agent/pgbackrest/repohost.go:365-433 | success means the desired configuration is written and confirmed, and after a change loaded |
| RepoHost.RepoHost.Authorize | internal/agent/pgbackrest/repohost.go:189-213 | success confirms the UID; failure leaves the state as it was or with the new authorization |
| RepoHost.RepoHost.ApplyWithout | internal/agent/pgbackrest/repohost.go:252-274 | where the search found the UID, success leaves nothing that authorizes it; where not, the server is left alone |
| RepoHost.RepoHost.Revoke | internal/agent/pgbackrest/repohost.go:217-246 | success drops the authorization; of a UID that either copy held, or that was confirmed or idle, nothing is left that serves it or could; the network named, or else recorded, is detached unless another authorization needs it |
| RepoHost.RepoHost.Remaining | internal/agent/pgbackrest/repohost.go:308-333 | an answer without the authorization means nothing serves a confirmed or idle UID or could; the network is named exactly when attached and unneeded |
| RepoHost.RepoHost.Reconcile | internal/agent/pgbackrest/repohost.go:337-348 | a restart keeps the saved state and on success confirms it |
| RepoHost.RepoHost.ConnectAll | internal/agent/pgbackrest/repohost.go:428-433 | success means every authorized network is attached |
| RepoHost.RepoHost.ConfirmApplied | internal/agent/pgbackrest/repohost.go:543-546 | may be called only for the desired configuration, written, that any running server has loaded |
| RepoHost.RepoHost.WaitReady | internal/agent/pgbackrest/repohost.go:548-570 | an answered ping of a server that loads what it was told to means the file is loaded |
| RepoHost.RepoHost.StartOrRecreate | internal/agent/pgbackrest/repohost.go:440-453 | success means a server that runs has loaded the file; no file of the agent changes |
| ProjectStatus.ProjectRecoveryStatus.FindObligation | api/v1/project_types.go:867-877 | the first entry for the assignment, none exactly when there is none |
| ProjectStatus.ProjectRecoveryStatus.AddObligation | api/v1/project_types.go:883-892 | one entry an assignment; one already there keeps its evidence |
| ProjectStatus.ProjectRecoveryStatus.OverrideRelease | api/v1/project_types.go:899-905 | changes only the authorization of the entry, or adds one |
| ProjectStatus.ProjectRecoveryStatus.OweManagedData | api/v1/project_types.go:909-913 | marks the entry's data owed and nothing else |
| ProjectStatus.ProjectRecoveryStatus.NodesOwingCleanup | api/v1/project_types.go:918-929 | lists a Node exactly when some entry of its is unresolved or has data outstanding |
| ProjectStatus.ProjectRecoveryStatus.BlockingObligation | api/v1/project_types.go:953-977 | none exactly when every obligation permits a new assignment |
| ProjectStatus.ProjectRecoveryStatus.ResourcesRemovedFor | api/v1/project_types.go:987-997 | true exactly when the first entry of that Node and generation is resolved |
| ProjectStatus.ProjectRecoveryStatus.ClearForNewAssignment | api/v1/project_types.go:1043-1053 | clears the no-start latch and the healthy window and no obligation |
| ProjectStatus.UnresolvedObligations | api/v1/finalization.go:105-118 | names exactly the unresolved assignments, none exactly when all are resolved |
| ProjectStatus.CleanupTasksFor | api/v1/project_types.go:1172-1193 | the tasks of a Node are its owing entries of this lifetime, and none while it holds the assignment |
| AssignmentRuns.RunKeeps | api/v1/project_types.go:883-905 | over every run each assignment ever granted is current, listed or confirmed removed, with the list well formed |
| AssignmentRuns.RecordOutlivesResources | api/v1/finalization.go:37-101 | whenever a gate lets the record go, and after, no Node holds anything of the lifetime |
| AssignmentRuns.TheGateWaitsForObligationsOnly | api/v1/finalization.go:37-76 | a Project that awaits finalization may be finalized if and only if every obligation is resolved |
| AssignmentRuns.OnlyAuthorizedOverlap | api/v1/project_types.go:918-977 | a Node never answers for two assignments, and two Nodes do only where an override, fencing or grace release said so |
| AssignmentRuns.FenceNeverReturns | internal/server/adapter/project.go:94-151 | an assignment that stopped being current never is again |
| AssignmentRuns.EveryDebtHasAnOwner | api/v1/project_types.go:1172-1193 | an unresolved assignment is a task of its own Node, or is the current one |
| AssignmentRuns.PhasesBelongToWriters | api/v1/phase_transition.go:46-100 | every phase change of every guarded write is an edge of its writer |
| AssignmentRuns.ReleaseKeeps | internal/server/adapter/project.go:247-334 | a release or grace release keeps the invariant, the obligation written with it |
| AssignmentRuns.TakeOverKeeps | internal/store/postgres/store.go:2170-2217 | an operator takeover keeps the invariant |
| AssignmentRuns.ScheduleKeeps | internal/server/adapter/project.go:94-151 | a new assignment keeps the invariant |
| AssignmentRuns.RemovedKeeps | internal/store/postgres/store.go:1276-1298 | recording evidence keeps the invariant |
| AssignmentRuns.ReportKeeps | internal/server/handler/project/handler.go:1015-1034 | a phase report of an agent keeps the invariant, Terminated only after its evidence |
| AssignmentRuns.DeleteKeeps | internal/server/handler/project/handler.go:807-897 | entering Terminating keeps the invariant, the held assignment owed |
| AssignmentRuns.QuarantinedKeeps | internal/store/postgres/store.go:1301-1315 | recording that data was quarantined keeps the invariant |
| AssignmentRuns.DeletingKeeps | internal/store/postgres/store.go:692-736 | deleting the record behind either gate keeps the invariant |
| Coordinator.Claims.TryClaim | internal/agent/backup/coordinator.go:73-101 | succeeds exactly when nobody holds the Project |
| Coordinator.Release.Call | internal/agent/backup/coordinator.go:93-100 | the first call gives up the claim; a later one changes nothing, whoever holds it by then |
| Coordinator.Claims.IsBusy | internal/agent/backup/coordinator.go:106-111 | busy exactly while some release function given out for the Project has not been called |
| Coordinator.AtMostOneHolder | internal/agent/backup/coordinator.go:51-66 | two standing claims on one Project are the same claim |
| Cleanup.RemoveAll | internal/agent/cleanup.go:51-61 | every kind is attempted: what did not fail is empty, and nothing outside the scope is touched |
| Cleanup.Remaining | internal/agent/cleanup.go:63-75 | an empty answer means every kind was read and holds nothing; one unreadable kind is an error |
| Cleanup.ObligationStands | internal/agent/cleanup.go:292-311 | says no only on a fresh read of a record in which the obligation does not stand |
| Cleanup.RevalidateCleanup | internal/agent/cleanup.go:313-346 | lets a task go on, and licenses its removal, only if the record just read hands it to this Node and something is still owed |
| Cleanup.RunCleanupTask | internal/agent/cleanup.go:191-234 | claim, fresh read, removal, empty read, report, data, in this order: nothing is removed on any license but that read; skipped tasks touch nothing; the claim is given back |
| Cleanup.CleanUp | internal/agent/cleanup.go:205-234 | the same, under the claim |
| Cleanup.Server.ReportResourcesRemoved | internal/agent/cleanup.go:262-285 | may be called only for an assignment this Node holds nothing of; accepted, also when resolved before, means the obligation no longer stands |
| Cleanup.ResolveOwnObligations | internal/agent/loop.go:1684-1703 | succeeds only if each own obligation was accepted, or found not to stand |
| Cleanup.ReportRemoved | internal/agent/loop.go:1714-1734 | a conflict counts as done only when a fresh read says the obligation does not stand |
| Cleanup.OpenHere | internal/agent/loop.go:1684-1696 | exactly the unresolved obligations of this Node and lifetime besides the current one |
| Cleanup.TerminateOne | internal/agent/loop.go:807-879 | Terminated only when nothing of the lifetime is held here and every own obligation is settled; other lifetimes are untouched |
| Cleanup.TearDown | internal/agent/loop.go:838-879 | the same, under the claim |
| BackupStore.EffectKeepsRestorable | internal/agent/backup/runner.go:292-388 | each put, commit and delete the agent may make keeps every manifest complete |
| BackupStore.EveryManifestIsComplete | internal/agent/backup/runner.go:292-388 | over every run with failures and crashes, a manifest's archives are there at their size, and the committed backup has a manifest |
| BackupStore.TheManifestKeyIsOne | internal/agent/backup/retention.go:26-33 | the key a manifest is written to is recognised as one |
| OfflineBackup.Runner.UploadAndVerify | internal/agent/backup/runner.go:365-388 | success means the store has the archive at exactly its size |
| OfflineBackup.Runner.CaptureVolumes | internal/agent/backup/runner.go:315-360 | the entries list the volumes in order, and every archive is there at the recorded size |
| OfflineBackup.Runner.WriteManifest | internal/agent/backup/runner.go:391-420 | may be called only for a complete generation, and then makes it restorable |
| OfflineBackup.Runner.CommitBackup | internal/agent/backup/runner.go:302-306 | may be called only once the manifest is there; an error may have committed |
| OfflineBackup.Runner.Run | internal/agent/backup/runner.go:205-310 | success commits the new generation; without success the restore source is the one before, or this one and complete |
| OfflineBackup.Runner.DeleteGeneration | internal/agent/backup/retention.go:129-141 | manifests first, so no interrupted deletion leaves a manifest with archives missing |
| OfflineBackup.Runner.DeleteKeys | internal/agent/backup/retention.go:129-141 | stops at the first failure; archives may go only once no manifest is left |
| OfflineBackup.Runner.Classify | internal/agent/backup/retention.go:74-85 | ours are exactly the generations whose manifest names this UID, abandoned exactly those without one |
| OfflineBackup.Runner.DeleteOld | internal/agent/backup/retention.go:90-95 | empties everything past the seventh that is not protected, if every deletion works |
| OfflineBackup.Runner.DeleteAbandoned | internal/agent/backup/retention.go:96-101 | empties every abandoned upload older than the oldest kept, if every deletion works |
| OfflineBackup.Runner.PruneGenerations | internal/agent/backup/retention.go:46-103 | only doomed generations lose an object, and if every deletion works no doomed one keeps any |
| Retention.SortNewestFirst | internal/agent/backup/retention.go:84-85 | the same IDs, newest first |
| Retention.PositionIsAge | internal/agent/backup/retention.go:86-95 | place seven or later in the sorted list is the same as seven newer generations of this UID |
| Retention.PruningIsConservative | internal/agent/backup/retention.go:62-103 | nothing of the newest seven, protected, of another or no or unreadable UID is deleted, and uploads without a manifest only below everything kept |
| Retention.PruningIsThorough | internal/agent/backup/retention.go:62-103 | besides the protected, at most seven generations of this UID are left |
| DockerSpec.HashSeesAllButSecretValues | internal/agent/docker/spec_update.go:70-99 | two services hash alike if and only if their containers would be built alike, Secret values aside |
| DockerSpec.ResolveService | internal/agent/loop.go:755-787 | every reference of the service gets the value of the first item with its key, or the call fails |
| DockerSpec.ResolveSecretsFor | internal/agent/loop.go:720-791 | fails exactly when something an included service references is missing; other services are not touched |
| DockerSpec.ResolvingKeepsHashes | internal/agent/loop.go:783-786 | the hash of the resolved and of the declared spec are the same |
| Docker.EffectStaysWithin | internal/agent/docker/client.go:1284-1315 | one effect that keeps to the five labels and the UID changes nothing else |
| Docker.SharedThingsStayWithin | internal/agent/docker/client.go:549-580 | over any run, whatever others do to containers, networks and volumes of another UID are as they were |
| Docker.ContainersStayWithin | internal/agent/docker/client.go:1284-1315 | over any run of own effects, containers of another assignment or of an untouched service are as they were |
| Docker.OperationStaysWithin | internal/agent/docker/client.go:1284-1315 | what the account of any operation comes to, between its beginning and now |
| DockerEnsure.EnsureNetwork | internal/agent/docker/client.go:780-809 | success means a network under the name that this lifetime may use; none is lost and no container changes |
| DockerEnsure.EnsureVolumes | internal/agent/docker/client.go:816-909 | success means every Ephemeral volume is there and may be used, and no type is unknown; none is lost |
| DockerEnsure.EnsureEphemeralVolume | internal/agent/docker/client.go:880-909 | success means the volume is there and may be used; a volume of another lifetime is refused |
| DockerEnsure.RemoveOwnedContainer | internal/agent/docker/spec_update.go:240-261 | success means the name is free, and nothing else changed |
| DockerEnsure.EnsureContainerPulled | internal/agent/docker/client.go:970-1099 | success means a running container of this assignment built from the spec; only this service is touched; no volume is made if all it mounts exist |
| DockerUpdate.SpecDrift | internal/agent/docker/spec_update.go:121-150 | outdated and missing in spec order, removed in name order, each exactly those; only reads |
| DockerUpdate.UnlistedContainers | internal/agent/docker/spec_update.go:156-177 | exactly this assignment's service containers the spec does not list, sorted |
| DockerUpdate.NoDriftIsConverged | internal/agent/docker/spec_update.go:101-118 | an empty drift is the same as exactly the containers the spec asks for |
| DockerUpdate.UpdatedIsConverged | internal/agent/docker/spec_update.go:187-238 | removing what the drift names and building what it lacks, from any state, leaves no drift |
| DockerUpdate.UpdateServices | internal/agent/docker/spec_update.go:187-238 | success on the drift just read leaves none, the network and volumes ready; a failed pull stops nothing; no network or volume is removed |
| DockerUpdate.PullAll | internal/agent/docker/spec_update.go:194-203 | an error names a service that is not in the spec |
| DockerUpdate.RemoveOutdated | internal/agent/docker/spec_update.go:206-215 | success leaves everything but the outdated containers |
| DockerUpdate.RemoveListed | internal/agent/docker/spec_update.go:216-221 | success leaves everything but the containers of removed services |
| DockerUpdate.BuildAll | internal/agent/docker/spec_update.go:229-236 | success leaves every service of the list built and running, and all other containers as they were |
| DockerUpdate.InterruptedUpdatesAreResumed | internal/agent/spec_update.go:92-97 | while the revision is unreported, an update is due if and only if the containers are not what the spec asks for |
| DockerUpdate.CrashesAreNotUpdates | internal/agent/spec_update.go:92-97 | once it is reported, an update is due if and only if something is outdated or left over |
| DockerUpdate.DriftIgnoresSecretValues | internal/agent/spec_update.go:192-212 | the drift of the declared spec is the drift of its resolved copy |
| DockerReconcile.CheckExistingOwnership | internal/agent/docker/client.go:264-279 | passes only if every service container that exists is this assignment's, and changes nothing |
| DockerReconcile.ReconcileProject | internal/agent/docker/client.go:113-183 | success leaves exactly what the spec asks for; a container of another assignment at the start stops it before any change, and midway no network or volume is removed; a rollback that works leaves nothing |
| DockerReconcile.Rollback | internal/agent/docker/client.go:185-202 | a rollback that works leaves nothing of the assignment |
| DockerReconcile.RemoveCreated | internal/agent/docker/client.go:204-232 | touches only containers it names, and each only if still this assignment's; without errors none of them is left |
| DockerReconcile.EnsureContainers | internal/agent/docker/client.go:139-162 | success leaves every service running; not owned, nothing shared is removed; any other failure is rolled back |
| DockerReconcile.RemoveUnlisted | internal/agent/docker/client.go:164-182 | success leaves none of this assignment's containers the spec does not list |
| DockerReconcile.RollbackVolumes | internal/agent/docker/client.go:377-403 | success leaves no declared volume of this UID, and no volume of another is touched |
| DockerReconcile.RollbackNetworkOf | internal/agent/docker/client.go:549-568 | success leaves no network of this UID under the name |
| DockerRecovery.PreflightTargets | internal/agent/docker/client.go:1255-1272 | only reads, and passes only if every target's mounts are there and its container, if any, this assignment's |
| DockerRecovery.PreflightVolumes | internal/agent/docker/client.go:1355-1413 | passes only if every Ephemeral mount is there and of this lifetime, and none is undeclared |
| DockerRecovery.RecoverOne | internal/agent/docker/client.go:1442-1502 | success means the service's own container runs; nothing else is touched |
| DockerRecovery.RecoverServices | internal/agent/docker/client.go:1415-1505 | refused, it changes nothing; otherwise it removes no network or volume, touches only the named services, and makes a volume exactly when it starts an outdated container that mounts one that is gone |
| DockerRecovery.StartingTheSpecsContainerMakesNothing | internal/agent/docker/client.go:1490-1500 | after the preflight, starting a container of the current spec makes no volume |
| DockerRecovery.StartMakesAVolumeExactlyWhen | internal/agent/docker/client.go:1490-1500 | after the preflight, the start of a target makes a volume if and only if its container is of another spec and an Ephemeral volume of that spec is gone |
| DockerRecovery.StartingAnOutdatedContainerCanMakeAVolume | internal/agent/docker/client.go:1490-1500 | a state that passes the preflight in which the start makes an empty volume |
| DockerRemoval.RemoveAssignment | internal/agent/docker/assignment_cleanup.go:53-110 | success is exactly the specified removal; without a UID nothing is done |
| DockerRemoval.AssignmentRemaining | internal/agent/docker/assignment_cleanup.go:116-153 | exactly what the daemon holds for the assignment |
| DockerRemoval.LifetimeHasContainers | internal/agent/docker/assignment_cleanup.go:166-184 | true exactly when another generation of the lifetime has a container here |
| DockerRemoval.RemoveEach | internal/agent/docker/assignment_cleanup.go:65-76 | every container is attempted; success leaves exactly the others |
| DockerRemoval.RemoveNetworkOf | internal/agent/docker/assignment_cleanup.go:87-93 | success removes exactly the lifetime's network |
| DockerRemoval.RemoveVolumesOf | internal/agent/docker/assignment_cleanup.go:95-103 | success removes exactly the lifetime's volumes |
| DockerRemoval.RemovedHoldsNothing | internal/agent/docker/assignment_cleanup.go:112-153 | after a removal the check finds nothing |
| DockerRemoval.RemoveAndConfirm | internal/agent/docker/assignment_cleanup.go:53-153 | a removal that reports success is confirmed by any check that can be made after it |
| DockerRemoval.OrderDoesNotMatter | internal/agent/docker/assignment_cleanup.go:37-52 | two generations removed in either order end alike, the network and volumes gone unless a third has containers |
| DockerRemoval.RemovalLeavesOthers | internal/agent/docker/assignment_cleanup.go:155-217 | containers of another UID or generation, and networks and volumes of another UID, are untouched |
| Orphans.OrphanTracker.Observe | internal/agent/orphan.go:72-143 | each Project is judged once; the lists are duplicate-free, disjoint and complete |
| Orphans.OrphanTracker.MarkStopped | internal/agent/orphan.go:145-147 | starts the grace period now |
| Orphans.OrphanTracker.Forget | internal/agent/orphan.go:156-156 | drops the state of one Project and no other |
| Orphans.OrphanTracker.ResetGrace | internal/agent/orphan.go:149-154 | stops every clock and forgets no Project |
| Orphans.SweepOrphans | internal/agent/orphan.go:167-256 | only Projects handed over are stopped, removed or forgotten, and the tracker is left accordingly; an unreadable Node only resets the clocks |
| OrphanRuns.RemovalIsConfirmed | internal/agent/orphan.go:93-110 | over whole runs of sweeps, a Project handed over for removal is not assigned, was stopped by an earlier sweep and tracked since, and a whole grace period passed on a clock that a sweep set and nothing reset |
| OrphanRuns.LossIsContinuousExactlyWhen | internal/agent/orphan.go:167-256 | over whole runs of sweeps, every snapshot of the grace period before a removal shows the loss if and only if no sweep of it handed the Project back without forgetting it |
| OrphanRuns.AFailedReturnKeepsTheClock | internal/agent/orphan.go:198-206 | a run of three sweeps in which a Project that came back comes up for removal at the first snapshot showing it gone again |
| Recovery.RecoveryTracker.Next | internal/agent/recovery.go:138-166 | the decision and the entry as specified, and no other entry changed |
| Recovery.RecoveryTracker.ObserveHealthy | internal/agent/recovery.go:190-194 | closes the incident of one key and no other |
| Recovery.RecoveryTracker.ClearTransient | internal/agent/recovery.go:218-222 | forgets when one key began restarting |
| Recovery.RecoveryTracker.Retain | internal/agent/recovery.go:244-263 | keeps exactly the entries, clocks and update failures of the given keys |
| Recovery.RecoveryTracker.SpecUpdateDue | internal/agent/spec_update.go:50-58 | an attempt is due as specified: `UpdateAttemptsAreSpaced` says what that amounts to |
| Recovery.RecoveryTracker.SpecUpdateFailed | internal/agent/spec_update.go:62-78 | counts the failures at this revision that stopped something, from none at a new one, and forgets other revisions; `UpdateAttemptsAreSpaced` says what that amounts to |
| Recovery.RecoveryTracker.SpecUpdateSucceeded | internal/agent/spec_update.go:81-85 | forgets the failures of one key and no other |
| Recovery.RecoveryTracker.ObserveTransient | internal/agent/recovery.go:203-213 | stuck exactly when first seen at least thirty seconds ago |
| Recovery.AttemptsAreBounded | internal/agent/recovery.go:138-166 | over every run an incident has at most three attempts, spaced by at least their backoffs, and the entry counts exactly those |
| Recovery.ExhaustionFollowsThreeAttempts | internal/agent/recovery.go:152-157 | exhausted if and only if three attempts were made in this incident, the last at least thirty seconds ago |
| Recovery.ExhaustionPersists | internal/agent/recovery.go:152-157 | once exhausted always, until healthy or dropped |
| Recovery.BudgetsAreIndependent | internal/agent/recovery.go:138-263 | two runs that agree on one key's steps agree on its entry, whatever happens to others |
| SpecUpdateRuns.UpdateAttemptsAreSpaced | internal/agent/spec_update.go:50-85 | over every run, failed attempts at one revision are at least a minute apart, from the end of one to the start of the next, and those that stopped something are counted exactly |
| SpecUpdateRuns.RecordsAreKept | internal/agent/spec_update.go:50-85 | the record of a Project is of its failed attempts since the last that succeeded, whatever happens to others |
| Routes.RouteTable.Update | internal/agent/proxy/route_table.go:47-82 | the project's old hosts go and its new ones come, in both maps |
| Routes.RouteTable.Add | internal/agent/proxy/route_table.go:54-77 | adds a route for every ingress whose service has an address, the later one of two for a host |
| Routes.RouteTable.Remove | internal/agent/proxy/route_table.go:85-108 | exactly the listed hosts go |
| Routes.RouteTable.Lookup | internal/agent/proxy/route_table.go:111-122 | the backend of the host without its port |
| Routes.TableAgrees | internal/agent/proxy/route_table.go:47-108 | while no two projects share a host, the table is what the latest operations ask for |
| Routes.EveryHostHasOneProject | internal/agent/proxy/route_table.go:21-32 | every routed host is listed under exactly one project, at its latest backend |
| Routes.OthersRoutesSurviveExactlyWhen | internal/agent/proxy/route_table.go:94-108 | a removal leaves another project's hosts if and only if the two share none; an update leaves one if and only if it is neither shared nor asked for, or gets the same backend |
| Routes.ASharedHostIsLost | internal/agent/proxy/route_table.go:94-108 | a run in which a shared host is lost |
| Routes.ShortHostsNeverConflict | internal/agent/proxy/route_table.go:142-147 | hosts without a dot never conflict between projects |
| Quantity.MemoryRoundTrips | internal/quantity/quantity.go:68-101 | every amount of memory survives being written and read |
| Quantity.CpuRoundTrips | internal/quantity/quantity.go:49-87 | every amount of millicores survives being written and read |
| Quantity.LargestUnitIsWritten | internal/quantity/quantity.go:89-101 | the unit written divides the value and no larger one does |
| Quantity.ParsingNeverOverflows | internal/quantity/quantity.go:68-82 | whatever the text, what is read fits 64 bits |
| Quantity.CountsNeverOverflow | internal/quantity/quantity.go:77-81 | a count is refused if and only if it is no number, negative or too large |
| Quantity.NumbersRoundTrip | internal/quantity/quantity.go:84-100 | a number of 64 bits survives being written and read |
| Quantity.OwnSuffixIsFound | internal/quantity/quantity.go:19-34 | a binary suffix is read as itself and not as a shorter one listed elsewhere |
| SpecChange.AcceptanceIsTransitive | api/v1/spec_update.go:23-58 | two accepted updates make one that would be accepted |
| SpecChange.VolumeRefusal | api/v1/spec_update.go:32-50 | no refusal exactly when every volume is kept with its type |
| SpecChange.ChainsKeepWhatWasBooked | api/v1/spec_update.go:23-58 | over any chain of accepted updates size and backup items stay, and every volume with its type |
| SpecChange.UnchangedIsAcceptedExactlyWhen | api/v1/spec_update.go:32-50 | a spec may replace itself if and only if it declares no volume with two types |

## Left out

- Force deletion, and rows migrated in with an Unknown history, are not initial states of `AssignmentRuns`; an Unknown history is never accepted by the gate.
- The rest of the Postgres store: each guarded write is one atomic step that may be refused.
- UpdateServices: what it leaves is stated for a daemon nobody else acts on; with others acting, only what it does not do is. The order in which containers stop and start is modelled and not stated.
- ReconcileProject: the same; the errors of a rollback are only logged, so a failed reconcile says what it leaves only where the rollback worked.
- RemoveAssignment: the same; `Held` is what the check would find at one moment.
- RecoverServices: that a recovered container was built from the current spec is not stated, because the code does not check it.
- PreflightTargets: host directories of Managed volumes are one answer, usable or not. That the start of a container of an earlier spec makes the missing directories of that spec's Managed volumes (internal/agent/docker/client.go:1493-1495) is not modelled either.
- Containers from before the spec-hash label count as mounting nothing, and what a stop or start makes of other statuses than running and exited is simplified.
- Docker labels whose key is absent and whose value is empty are the same; a generation label that is not a plain number is no generation.
- RunCleanupTask: moving the data aside is one step that succeeds or not; nothing is said of where it goes.
- ResolveSecretsFor: the order in which Secrets are fetched, and the kinds of fetch error.
- UnresolvedObligations: the order of the names is not stated.
- The status reports of an update, the limit on its attempts, and the conditions of the applySpecUpdate table.
- ParseCPU: core counts are floating-point numbers in the source and are not modelled.
- Stopping and starting a whole Project around a backup (internal/agent/docker/client.go:648-725): the same checks and calls as recovery, one service after another.
- Orphan sweeps: what stopping and removing does in Docker beyond succeeding or not.
- `ShouldRestartContainers`, condition messages, labels used only for display, simple validators.
- HTTP clients, the CLI, configuration loading, the overlay network, reverse-proxy serving, certificates, tar, gzip, psql and pgBackRest themselves.
