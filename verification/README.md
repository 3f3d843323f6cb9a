# YolPol deployment control plane: a verified model

The deployment programs of YolPol move one host, with a staging and a production
environment, from one release to the next. They must stay safe when any file
write, network call or container operation fails, and when the process is killed
between two of them. This project models that machinery in Dafny and proves what
it keeps, over single calls and over whole runs.

`dafny verify dfyconfig.toml` checks the whole project.

## How the modules fit together

The release controller:

- `Releases`, `Outcomes`, `Newlines`: manifests and the facts a policy reads out
  of them, directories and runtime files, the four ways an effect can end, and
  Python's newline rewriting.
- `EnvironmentHost` (module `ReleaseHost`): the active release directory, its
  siblings, the runtime files and the database schema of one environment, with the
  atomic exchange of directories.
- `DeploymentJournal`: the rollback journal, written file by file and byte by byte,
  and read back.
- `DeploymentLedger`: records, blockers, `begin_record`, `transition` and the
  reconciliation command, over the ledger file and the copy in memory.
- `DeploymentProtocol`: the script of a transaction as a list of events, its
  rollback, and the relation `Step` between the durable world before and after one
  invocation that may stop anywhere.
- `ReleaseController`: `execute_transaction`, its failure handler and `main` as
  methods with a nondeterministic outcome at every effect; `Apply` and
  `ReconcilePreMutation` refine `Step`.
- `ControllerRuns`: theorems over every run, that is every sequence of `Step`s from
  an empty ledger on a host whose databases fit their authorities.
- `DeploymentOrder`: the events of every kind of transaction one by one, and which of
  them come before which, in every transaction and for every success and rollback.
- `ControllerFiles`: what journals, active directories, runtime files and records hold.
  `ControllerBlockers`: how long an environment stays blocked and what unblocks it.
- `ControllerExamples`: steps that exist from every ready submission. Each is a `Step`
  and leaves the complete journal, a record with the digest, the fingerprints and the
  backup of its plan, and the evidence, as the controller does.

Codecs and evidence: `Decimal`, `TextOrder`, `Utf8`, `Base64Url`, `MigrationFingerprint`,
`RuntimeEnvironment`, `ComposeRewrite`, `FlatJson`, `DurabilityEvidence`,
`TemporarySpace`. Small runtimes: `LargestIds`, `DeploymentAgent`,
`ContinuousWorker`, `BackupIds`, `BackupSelection`.

Every effect ends `Done`, `Raised` (an exception class that the controller's
`except` clause names), `Escaped` (any other exception) or `Stopped` (the process
ended). What a contract says without a condition on the outcome therefore holds at
every intermediate step. Events, attempts and the database schema are ghost state:
they are what the theorems talk about, and no branch reads them.

Assumed: the deployment lock serialises invocations; only a migration changes a
database schema; a migrator that returns has only added migrations to those that
were applied, and has reached its target if that extends them (`Migrated`); no
release is promoted by hand; SHA-256 tells the acceptable manifests apart, and their
migration sets (`CollisionFree`); the ledger starts empty while each database
fits its active authority.

## Where the code and its promises differ

- The controller compares fingerprints only for equality
  (deploy/control-plane/yolpol-release-controller.py:982), and no down migration
  exists. A release with fewer migrations than the database is deployed as a
  success although its migrator changed nothing, and no blocker shows that the
  database does not fit (`DowngradeLeavesMismatch`). The two releases tell this before
  the submission: from a database that fits, every execution that leaves no blocker
  leaves one that fits, exactly if the target has the fingerprint of the active release
  or extends its migrations (`FitsIffTargetExtends`). A run in which all targets do so is
  free of unblocked mismatches (`ExtendingReleasesFit`); in general a run is, exactly if
  every migration that was completed without leaving a blocker had a target that extends
  the schema it found (`FreeOfMismatchIffForward`).
- `BootstrapError` and `PolicyError` are plain `Exception`s, so the `except` clause
  of `execute_transaction` (deploy/control-plane/yolpol-release-controller.py:1074)
  does not see them, although
  docs/tasks/0066-authenticated-release-deployment-automation.md:50 says that
  failures before a migration restore the previous authority. A rollback is begun
  exactly if the deployment raised an exception that the clause names while no
  migration was announced (`Commit`, `CaughtOrNot`). A runtime file
  that is refused after the exchange of directories leaves the target active without
  a rollback (`EscapeLeavesTarget`); its record stays in progress and blocks the
  environment (`CaughtOrNot`).
- A submission that is refused because of a blocker adds a blocker of its own, and
  the reconciliation command refuses while another one stands: from then on the
  environment is blocked for good (`RefusalBlocksForever`). A blocked environment is
  blocked after everything that can follow exactly if the command can close none of its
  records now (`BlockedForGoodIff`). What a crash before the first step of a Staging
  transaction leaves can be closed exactly if nothing else blocks Staging and an
  authority was active when it was submitted (`CrashIsClearableIff`).
- The checksum file is read as text, so CR LF and CR become LF. A rollback gives
  back the former checksum file byte by byte exactly if it had no CR
  (`RollbackIsExact`, `RollbackCanDiffer`); every release activated by the controller has none
  (`RunStaysClean`).
- If `signals.off` throws in the `finally` block of `runContinuousWorker`, the
  remaining listeners stay and `close` is skipped (`RemovalCanSkipClose`). The runtime
  is closed exactly once if and only if no removal throws (`Closed`).
- `render_runtime` accepts a replacement value that continues with a comment line: the
  file then says only its first line (`CommentIsLost`). A rendered file reads exactly as
  the current settings with the replacements if and only if every replacement is a value
  that the parser accepts (`RendersExactlyIff`). The controller passes the revision and
  the image references of a validated manifest only.
- The staging rewrite maps `production-web` to `staging-web`, which the walk for
  staging references does not forbid. It is the only distinction that is lost
  (`OnlyTheAliasIsLost`). The check of the web service pins the alias in one place;
  pinned models with equal normal forms can still differ in the alias elsewhere, and
  in nothing else (`PinnedModelsAgreeIff`, `PinnedAliasLosesNothing`).
- The migration fingerprint is taken over decoded texts, so two SQL files that are
  not well-formed UTF-8 can have the same one (`DigestConfusesIllFormedFiles`); among
  well-formed files it tells all bytes but the style of newlines apart
  (`SameDigestIffSameBytes`).
- The bytes in the verification directory stay within the admitted requirement
  exactly as long as the artifact, while it is staged, has not grown past that
  requirement less the reserve: its size is compared only after it was copied.
- A backup name with an impossible date can hide a newer pair where the platform's
  date parser rolls such dates over (`UnrealDateMisleads`). The metric names the newest
  valid pair for every directory exactly if the parser gives times in the order of
  the names (`NewestIffParsesInOrder`).

## Model

| member | source | states |
|---|---|---|
| ReleaseController.Controller.Apply | deploy/control-plane/yolpol-release-controller.py:1144-1216 | one `apply` invocation, ended or stopped anywhere, is one `Step` of the durable world; exit 0 is reported only if the ledger answers for the submission with a terminal record of its own or an earlier success of its manifest, and that was published; it is rejected only as a conflict, and never if it is on record in a ledger without shared keys |
| ReleaseController.Controller.ReconcilePreMutation | deploy/control-plane/yolpol-release-controller.py:1118-1121 | the reconciliation command is idle or closes one record that `MayReconcile` allows and that has no journal |
| ReleaseController.Controller.ExecuteTransaction | deploy/control-plane/yolpol-release-controller.py:947-1112 | wherever the transaction ends: its events follow the script and possibly the rollback, the active pair is the former, the target or the restored one, the durable record and the one `main` writes next fit the host, evidence attests a changed production plan before activation, and the other environment is untouched |
| ReleaseController.Controller.Prepare | deploy/control-plane/yolpol-release-controller.py:964-1047 | before the announcement nothing on the hosts changes; the events are a prefix of the preparation script, all of it on return, when the journal also returns the captured release |
| ReleaseController.Controller.CheckProduction | deploy/control-plane/yolpol-release-controller.py:987-1026 | validation, staging success and, for another fingerprint, health, backup, receipt and attested evidence happen in this order, and all of them if it returns |
| ReleaseController.Controller.ProveDurability | deploy/control-plane/yolpol-release-controller.py:861-904 | it runs `perform_durability` on the evidence directory and returns only if the file of the deployment was not there before and now attests exactly this context; a module that cannot be loaded is no refusal unless by a control-plane error |
| ReleaseController.Controller.MakeDurable | deploy/control-plane/yolpol-release-controller.py:1003-1026 | the step returns only once a new evidence file of the deployment validates for this context; without evidence the record is unchanged or the Phase C2 failure, and no evidence file is ever overwritten |
| ReleaseController.Controller.Activate | deploy/control-plane/yolpol-release-controller.py:763-766 | however far activation came, the active pair is the old or the new one, each owned runtime file too, and none is new while the pair is old; on return target pair and files are installed |
| ReleaseController.Controller.Perform | deploy/control-plane/yolpol-release-controller.py:780-811 | an internal action logs its begin and end; only a migration touches the schema, and one that returns has only added migrations, up to its target where that extends what it found |
| ReleaseController.Controller.MigrateSchema | deploy/control-plane/yolpol-release-controller.py:1057-1060 | the schema changes only after the migrate action began, forward only once it returned, and the record in memory leaves `never-started` no later than the attempt to announce it |
| ReleaseController.Controller.Commit | deploy/control-plane/yolpol-release-controller.py:1047-1109 | deployment plus handler: a rollback is begun iff the deployment's own outcome was a caught exception with no migration announced; such a failure ends rolled back or rollback-failed, a later one in manual review or, on staging, on the migrated target; an uncaught one is passed on with the record in progress |
| ReleaseController.Controller.Recover | deploy/control-plane/yolpol-release-controller.py:1074-1109 | before a migration was announced the handler restores and ends rolled-back or rollback-failed; afterwards it adds no event: a started migration becomes failed and goes to manual review, a completed one goes to manual review on Production and keeps its record as it is on Staging; it never returns normally and never touches the database |
| ReleaseController.Controller.RestorePrevious | deploy/control-plane/yolpol-release-controller.py:769-777 | from any partial activation, a returned restore leaves the captured pair and runtime files; otherwise the active pair is still one of the three |
| ReleaseController.Controller.Conclude | deploy/control-plane/yolpol-release-controller.py:1183-1216 | after the final transitions the durable record still fits events and host, and exit 0 means it is terminal |
| DeploymentLedger.Decide | deploy/control-plane/yolpol-release-controller.py:246-303 | a new record is opened only if no replay key is shared, no blocker stands and the manifest has not succeeded; a replay is the identical identity (`DecideIff` says when each answer is given) |
| DeploymentLedger.DecideIff | deploy/control-plane/yolpol-release-controller.py:246-303 | when each of the six answers is given: the first shared key decides between replay and conflict, then a review, then a reconciliation, then an earlier success |
| DeploymentLedger.ResubmissionIsReplay | deploy/control-plane/yolpol-release-controller.py:248-255 | where no two records share a key, an identity on record is answered by its own record; a conflict is one that shares a key and is not on record |
| DeploymentLedger.OpenedSays | deploy/control-plane/yolpol-release-controller.py:273-303 | an opened record runs and has done nothing, or asks for exactly what the blocker of its environment asks |
| DeploymentLedger.ReconciledSays | deploy/control-plane/yolpol-release-controller.py:370-379 | a closed record is a failure that asks for nobody and keeps its authority |
| DeploymentLedger.Ledger.BeginRecord | deploy/control-plane/yolpol-release-controller.py:246-303 | the loops decide as `Decide` says; the ledger grows by exactly the opened record or stays as it is |
| DeploymentLedger.Ledger.Transition | deploy/control-plane/yolpol-release-controller.py:382-386 | one record changes, in memory first; the file holds the old or the new list |
| DeploymentLedger.Ledger.ReconcilePreMutation | deploy/control-plane/yolpol-release-controller.py:325-379 | the durable ledger changes only by closing the one matching accepted staging record with unchanged authority, no other blocker and no journal |
| DeploymentJournal.JournalStore.Snapshot | deploy/control-plane/yolpol-release-controller.py:650-701 | at whatever byte writing ends, a journal without its full marker is rejected and one with it returns exactly the captured previous material, for its environment only; a complete one also holds the target |
| DeploymentJournal.PreviousMaterial | deploy/control-plane/yolpol-release-controller.py:727-760 | what is returned is complete: a pair and exactly the owned runtime files, none empty |
| DeploymentJournal.AcceptedJournalIs | deploy/control-plane/yolpol-release-controller.py:727-760 | an accepted journal consists of exactly the files of its environment, none empty, with marker and environment line |
| ReleaseHost.EnvironmentHost.ActivateReleasePair | deploy/bootstrap/yolpol-bootstrap.py:1038-1085 | at every step the active directory is exactly the old or the new pair; an old directory that is not exactly a valid pair is not exchanged; the old pair survives the exchange and is archived on return; nothing staged remains after a normal return |
| ReleaseHost.AtomicWrite | deploy/bootstrap/yolpol-bootstrap.py:661-686 | the file is the old or the new one at every moment, and a differing file is replaced only on request |
| ReleaseHost.EnvironmentHost.Install | deploy/control-plane/yolpol-release-controller.py:763-777 | pair first, then runtime files; each file is old or new at every moment |
| ControllerRuns.RunKeepsInv | deploy/control-plane/yolpol-release-controller.py:246-322 | the invariant (exclusive records, recorded attempts, idle accepted records) holds in every world of every run |
| ControllerRuns.NoUnblockedMismatch | deploy/control-plane/yolpol-release-controller.py:947-1112 | as long as the migrations that were completed without a blocker went forward, an environment without blocker has a database that fits its active authority in every world between invocations |
| ControllerRuns.FreeOfMismatchIffForward | deploy/control-plane/yolpol-release-controller.py:978-1060 | a run is free of unblocked mismatches iff every migration completed without leaving a blocker had a target that extends the schema it found |
| ControllerRuns.EndsConsistentIff | deploy/control-plane/yolpol-release-controller.py:978-1060 | one transaction from a fitting database that leaves no blocker ends with a fitting one iff it completed no migration, or one whose target extends the schema found |
| ControllerExamples.FitsIffTargetExtends | deploy/control-plane/yolpol-release-controller.py:978-1060 | from a fitting database, every execution of a ready plan that leaves no blocker leaves a fitting one iff the target has the fingerprint of the active release or extends its migrations |
| ControllerRuns.ExtendingReleasesFit | deploy/control-plane/yolpol-release-controller.py:978-1060 | a run in which every transaction with another fingerprint has a target that extends the active release is free of unblocked mismatches |
| ControllerExamples.DowngradeLeavesMismatch | deploy/control-plane/yolpol-release-controller.py:982 | a one-step run, with its journal, in which a release with fewer migrations succeeds on staging, leaving no blocker and a database that does not fit |
| ControllerRuns.FailureEndsInTwoWays | deploy/control-plane/yolpol-release-controller.py:1074-1109 | a terminal failure with activation begun and no migration started is rolled back to the former release with nothing else changed, or rollback-failed and blocked |
| ControllerRuns.CaughtOrNot | deploy/control-plane/yolpol-release-controller.py:1074-1109 | a rollback was begun iff the deployment ended in a caught exception with no migration announced; a caught failure before a migration that becomes terminal is such a failure; an uncaught one or a crash leaves the record in progress without a rollback; a record in progress blocks |
| ControllerExamples.EscapeLeavesTarget | deploy/control-plane/yolpol-release-controller.py:763-766 | a step in which activation is refused by an uncaught exception: target pair active, journal complete, no rollback, record in progress |
| ControllerRuns.FailureRestoresOrBlocks | deploy/control-plane/yolpol-release-controller.py:1074-1109 | a transaction that began activation and neither succeeded nor completed a migration left the former release or a blocker |
| ControllerBlockers.StagingStaysUsable | deploy/control-plane/yolpol-release-controller.py:1079-1090 | a Staging deployment that fails after its migration was completed leaves a terminal record that blocks nothing; its manifest under a fresh identity gets a new record |
| ControllerBlockers.UnknownMigrationIsFinal | deploy/control-plane/yolpol-release-controller.py:306-314 | once a migration began and did not return, no later invocation enters a transaction of that environment |
| ControllerBlockers.ProductionReviewIsFinal | deploy/control-plane/yolpol-release-controller.py:1079-1090 | the same after every caught and concluded Production failure from the announcement of a migration on |
| ControllerBlockers.RepeatedIsReplayed | deploy/control-plane/yolpol-release-controller.py:248-255 | in every world of a run, a submission that is on record is a replay of its own record |
| ControllerFiles.ActiveIsAuthentic | deploy/control-plane/yolpol-release-controller.py:763-777 | whenever an active directory changes it is exactly the submitted manifest with its checksum line, or the former one restored |
| ControllerFiles.SuccessInstalls | deploy/control-plane/yolpol-release-controller.py:1047-1073 | a success has the submitted pair and each runtime file of its environment in place and leaves the others alone |
| ControllerFiles.RecordNames | deploy/control-plane/yolpol-release-controller.py:978-1011 | a record names digest and fingerprint of the authority found, then the fingerprint of the target and the backup |
| ControllerFiles.RecordEnds | deploy/control-plane/yolpol-release-controller.py:1183-1206 | the results of successes and refusals; a failure before the authority is touched leaves the host as it was and blocks nothing |
| ControllerFiles.EveryJournalReturns | deploy/control-plane/yolpol-release-controller.py:650-760 | any journal in any world of a run, complete or torn, returns for its environment what that environment held before its one transaction, or nothing |
| ControllerFiles.JournalReturnsFormer | deploy/control-plane/yolpol-release-controller.py:1035-1049 | a transaction that touched the authority had written its journal, which in every later world returns the release that it found, for its environment only |
| ControllerFiles.RuntimesFollowAuthority | deploy/control-plane/yolpol-release-controller.py:763-777 | in every step, stopped anywhere, each runtime file is the former one or that of the target, and none is replaced while the former authority is active unless a rollback has begun |
| ControllerFiles.RuntimesAreSourced | deploy/control-plane/yolpol-release-controller.py:763-777 | in every world of a run each runtime file is the first one or the target file of an attempt that began its activation |
| ControllerRuns.RestoreNeverFollowsMigration | deploy/control-plane/yolpol-release-controller.py:939-944 | no transaction that restores the former release ever began a migration |
| ControllerRuns.ReviewLatch | deploy/control-plane/yolpol-release-controller.py:264-272 | once in database review an environment stays there and no later invocation enters a transaction in it |
| ControllerRuns.OnlyReconciliationClears | deploy/control-plane/yolpol-release-controller.py:325-379 | a reconciliation blocker disappears only by the command, for a staging record whose transaction did nothing and has no journal; the environment is consistent if the migrations so far went forward |
| ControllerBlockers.TwiceBlockedForever | deploy/control-plane/yolpol-release-controller.py:350-357 | an environment with two blocking records is blocked in every later world |
| ControllerBlockers.RefusalBlocksForever | deploy/control-plane/yolpol-release-controller.py:287-303 | once a submission was refused because of a blocker, its environment is blocked in every later world |
| ControllerBlockers.BlockedForGoodIff | deploy/control-plane/yolpol-release-controller.py:325-379 | a blocked environment is blocked after every sequence of invocations iff the reconciliation command can close none of its records now |
| ControllerBlockers.CrashIsClearableIff | deploy/control-plane/yolpol-release-controller.py:325-379 | in every world of a run, the command can close a staging record that is accepted and in progress iff nothing else blocks staging and an authority was active when it was opened |
| ControllerRuns.AtMostOnce | deploy/control-plane/yolpol-release-controller.py:246-303 | records and attempts are pairwise distinct in each of the four replay keys; one running record per environment and one success per environment and manifest |
| ControllerRuns.SuccessStays | deploy/control-plane/yolpol-release-controller.py:931-936 | a staging success is never undone by any later invocation |
| ControllerRuns.ProductionIsGated | deploy/control-plane/yolpol-release-controller.py:987-1050 | whenever the production authority changes, its manifest had succeeded on staging, and a changed fingerprint was preceded in order by health, backup, receipt and evidence; the evidence file of the deployment, absent before, then validates for exactly this plan's deployment, backup, fingerprints and manifest |
| ControllerRuns.EvidenceStays | deploy/operations/yolpol-offserver-durability.py:511-537 | no invocation of a run changes an evidence file that exists |
| ControllerRuns.ScriptIsGated | deploy/control-plane/yolpol-release-controller.py:992-1026 | that order holds in every transaction of another fingerprint, finished or not |
| DeploymentOrder.StagingMigrationPreparation | deploy/control-plane/yolpol-release-controller.py:978-1047 | the steps of a Staging preparation with another fingerprint, one by one |
| DeploymentOrder.ProductionMigrationPreparation | deploy/control-plane/yolpol-release-controller.py:978-1047 | the steps of a Production preparation with another fingerprint, one by one |
| DeploymentOrder.StagingRollout | deploy/control-plane/yolpol-release-controller.py:1061-1072 | the steps of a Staging rollout, one by one |
| DeploymentOrder.ProductionRollout | deploy/control-plane/yolpol-release-controller.py:1061-1072 | the steps of a Production rollout, one by one |
| DeploymentOrder.RollbackSteps | deploy/control-plane/yolpol-release-controller.py:1091-1101 | the steps of a rollback, one by one |
| DeploymentOrder.SuccessIsVerified | deploy/control-plane/yolpol-release-controller.py:1047-1073 | every success has deployed all services, then probed health and ingress, on Staging also the public site, before it was recorded as verified; a migration returned and was recorded before the services were deployed |
| DeploymentOrder.RolledBackIsRedeployed | deploy/control-plane/yolpol-release-controller.py:1091-1101 | every rolled-back record stands for a restored release whose services were deployed again after that |
| DeploymentOrder.ActivatingAfterJournal | deploy/control-plane/yolpol-release-controller.py:1032-1049 | in every transaction the authority is touched only after validation, journal and announcement |
| DeploymentOrder.MigratingAfterBackup | deploy/control-plane/yolpol-release-controller.py:987-1059 | in every transaction a migration begins only after backup, journal, activation, database service and its announcement, on Production also after health, receipt and evidence |
| DeploymentOrder.ServicesAfterMigration | deploy/control-plane/yolpol-release-controller.py:1057-1062 | in every transaction with another fingerprint the services follow a migration that returned and was recorded |
| DeploymentOrder.VerifiedAfterProbes | deploy/control-plane/yolpol-release-controller.py:1061-1072 | in every transaction `verified` follows the deployment of the services and then the probes |
| ControllerExamples.SuccessIsPossible | deploy/control-plane/yolpol-release-controller.py:1176-1216 | whatever happened before, where a submission is ready a step leads to the target in place, any database that a migrator may leave, and a success in the ledger |
| ControllerRuns.RollbackIsExact | deploy/control-plane/yolpol-release-controller.py:535-553 | a restored environment equals the one before, byte by byte, iff its checksum file had no carriage return |
| ControllerExamples.RollbackCanDiffer | deploy/control-plane/yolpol-release-controller.py:535-553 | a rolled-back step from any ready submission, which changes its environment iff the checksum file had a carriage return |
| ControllerRuns.RunStaysClean | deploy/bootstrap/yolpol-bootstrap.py:1054-1057 | checksum files without carriage return stay so over every run |
| ControllerRuns.RolledBackIsUnchanged | deploy/control-plane/yolpol-release-controller.py:1091-1101 | over such runs a record that says rolled-back means that nothing in its environment differs |
| Newlines.TranslateFixes | tooling/release/release-contract.ts:211-213 | newline rewriting changes exactly the texts with a carriage return |
| Newlines.TranslateIdempotent | tooling/release/release-contract.ts:211-213 | newline rewriting is idempotent |
| Newlines.TranslateUndoesStyle | tooling/release/release-contract.ts:211-213 | a text without CR comes back from its CR LF form and from its CR form |
| MigrationFingerprint.UnframeFrame | tooling/release/release-contract.ts:236-245 | the framed stream decodes to the list of paths and contents, whatever bytes they hold |
| MigrationFingerprint.FrameInjective | tooling/release/release-contract.ts:236-245 | equal streams come from equal lists |
| MigrationFingerprint.FrameOfOne | tooling/release/release-contract.ts:242-245 | one input in the stream: decimal size, colon, path, colon, decimal size, colon, content |
| MigrationFingerprint.FrameOfConcat | tooling/release/release-contract.ts:242-245 | the stream of a list is that of its parts, one after the other |
| MigrationFingerprint.InputsAre | tooling/release/release-contract.ts:237-240 | journal first, then the SQL files by name, each under its path from the root, with its text normalised |
| MigrationFingerprint.Calculate | tooling/release/release-contract.ts:215-247 | a fingerprint exists iff tags are distinct, not empty and name exactly the SQL files; it is the last tag with the digest |
| MigrationFingerprint.FeedAll | tooling/release/release-contract.ts:236-246 | the hash loop digests exactly the framed stream |
| MigrationFingerprint.SameDigestIffSameText | tooling/release/release-contract.ts:215-247 | two accepted directories have the same digest iff journal, names and SQL agree as decoded texts after newline rewriting |
| MigrationFingerprint.SameDigestIffSameBytes | tooling/release/release-contract.ts:211-247 | among well-formed files the digest tells all bytes apart but the style of newlines |
| MigrationFingerprint.CheckoutKeepsDigest | tooling/release/release-contract.ts:211-247 | a directory and its checkout with CR LF, or CR, for every newline have one digest |
| MigrationFingerprint.DigestConfusesIllFormedFiles | tooling/release/release-contract.ts:211-213 | two different ill-formed SQL files with the same digest |
| Utf8.DecodedFixes | tooling/release/release-contract.ts:211-213 | reading a file as UTF-8 loses nothing iff it is well formed |
| Utf8.DecodedIsWellFormed | tooling/release/release-contract.ts:211-213 | what is read is well formed, whatever the file holds |
| Utf8.WellFormedIffEncoding | tooling/release/release-contract.ts:211-213 | the well-formed files are exactly the encodings of sequences of Unicode scalar values |
| Utf8.DecodedExample | tooling/release/release-contract.ts:211-213 | each maximal part of a form that is cut short becomes one replacement character |
| Base64Url.GroupsAreNumbers | deploy/control-plane/yolpol_control_plane.py:170-171 | a group of bytes and its sextets are digits of one number, short groups filled with zero bits |
| Base64Url.JoinSplit | deploy/control-plane/yolpol_control_plane.py:156-171 | joining the sextets of any byte string gives it back, and no left-over bit is set |
| Base64Url.DecodeIffEncoded | deploy/control-plane/yolpol_control_plane.py:156-171 | a text decodes to `b` iff `b` is non-empty, within the limit, and the text is its encoding |
| Base64Url.AcceptsIffCanonical | deploy/control-plane/yolpol_control_plane.py:156-167 | the accepted texts are exactly those in the alphabet, of possible length, without left-over bits, within the limit |
| Base64Url.LettersOfAlphabet | deploy/control-plane/yolpol_control_plane.py:156-171 | the letters are the URL-safe alphabet in its order |
| Base64Url.EncodeExamples | deploy/control-plane/yolpol_control_plane.py:170-171 | test vectors of the standard |
| Base64Url.EncodeByGroups | deploy/control-plane/yolpol_control_plane.py:170-171 | longer strings are encoded group by group |
| RuntimeEnvironment.Parse | deploy/operations/yolpol-deploy-policy.py:288-306 | the parsing loop returns `m` iff the text, read without order, says exactly `m` |
| RuntimeEnvironment.DescribesOne | deploy/operations/yolpol-deploy-policy.py:288-306 | lines describe at most one set of settings |
| RuntimeEnvironment.SettingsArePlain | deploy/operations/yolpol-deploy-policy.py:288-306 | an accepted text is printable, has exactly the expected keys, none of which controls Compose or Docker, and plain values |
| RuntimeEnvironment.RepeatedKeyIsRefused | deploy/operations/yolpol-deploy-policy.py:288-306 | a text that sets a key twice says nothing |
| RuntimeEnvironment.PrintReadsBackIff | deploy/control-plane/yolpol-release-controller.py:566-567 | the sorted print reads back unchanged iff every key and value is well formed |
| RuntimeEnvironment.PrintSaysFirstLines | deploy/control-plane/yolpol-release-controller.py:566-567 | whatever reads back holds the first line of each value |
| RuntimeEnvironment.PrintIsSorted | deploy/control-plane/yolpol-release-controller.py:566 | the print has one line for each key in ascending order |
| RuntimeEnvironment.RenderRuntime | deploy/control-plane/yolpol-release-controller.py:556-569 | the rendered file reads as the current settings overridden at exactly the replaced keys, and a refusal is due to text, keys, values or policy |
| RuntimeEnvironment.RendersExactlyIff | deploy/control-plane/yolpol-release-controller.py:556-569 | a rendered file reads exactly as the current settings with the replacements iff every replacement is an acceptable value |
| RuntimeEnvironment.CommentIsLost | deploy/control-plane/yolpol-release-controller.py:566-568 | a replacement with a comment line that reads back as its first line |
| RuntimeEnvironment.TargetsAreValues | deploy/control-plane/yolpol-release-controller.py:572-595 | revisions and image references are acceptable values, so the rendered file holds them exactly |
| ComposeRewrite.RestoreNormalized | deploy/operations/yolpol-deploy-policy.py:1062-1080 | on accepted models the rewrite can be undone up to the ingress alias |
| ComposeRewrite.RewritesExactly | deploy/operations/yolpol-deploy-policy.py:1069-1080 | what is rewritten to what, and that every other text stays |
| ComposeRewrite.ForbidsExactly | deploy/operations/yolpol-deploy-policy.py:1118-1136 | the walk refuses exactly `staging` and the texts that contain one of four parts |
| ComposeRewrite.AcceptsExactly | deploy/operations/yolpol-deploy-policy.py:1118-1136 | the walk looks at every key and every text, however deep |
| ComposeRewrite.NormalFormsAgreeIff | deploy/operations/yolpol-deploy-policy.py:1062-1080 | accepted models have equal normal forms iff they differ at most in the alias |
| ComposeRewrite.OnlyTheAliasIsLost | deploy/operations/yolpol-deploy-policy.py:1118-1136 | an accepted model is determined by its normal form iff it holds no alias |
| ComposeRewrite.PinnedModelsAgreeIff | deploy/operations/yolpol-deploy-policy.py:1184-1188 | pinned models have equal normal forms iff they differ at most in the alias outside of the pinned place |
| ComposeRewrite.PinnedAliasLosesNothing | deploy/operations/yolpol-deploy-policy.py:1184-1188 | among models whose web ingress alias is pinned, one is determined by its normal form iff no alias occurs outside of the pinned place |
| FlatJson.UniqueObject | deploy/operations/yolpol-offserver-durability.py:128-134 | the loop builds the dictionary of pairs with distinct keys and refuses exactly lists with a repeated key |
| FlatJson.StrictObjectOfCanonical | deploy/operations/yolpol-offserver-durability.py:137-161 | reading the canonical print gives the object back, iff within the size limit |
| FlatJson.CanonicalInjective | deploy/operations/yolpol-offserver-durability.py:154-161 | equal prints come from equal objects |
| FlatJson.CanonicalIsSorted | deploy/operations/yolpol-offserver-durability.py:154-161 | keys are printed in ascending order, each once |
| FlatJson.PairsArePrinted | deploy/operations/yolpol-offserver-durability.py:154-161 | quotes, colons and commas without spaces |
| FlatJson.EscapesArePrinted | deploy/operations/yolpol-offserver-durability.py:154-161 | the escapes of quotes, backslashes and control characters |
| FlatJson.UnitsArePrinted | deploy/operations/yolpol-offserver-durability.py:154-161 | characters beyond ASCII are printed by their UTF-16 code units |
| FlatJson.Utf8SizeIs | deploy/operations/yolpol-offserver-durability.py:137-139 | the size that is limited is that of the UTF-8 form |
| DurabilityEvidence.ConvincingIffStated | deploy/operations/yolpol-offserver-durability.py:474-508 | the field checks pass, under Python's equality of booleans and integers, iff the object is the evidence of what it states and that is valid now |
| DurabilityEvidence.AcceptsIffAttested | deploy/operations/yolpol-offserver-durability.py:463-508 | data is accepted iff it is the canonical print of this context's evidence with a fresh valid confirmation, within the limit |
| DurabilityEvidence.AcceptsIffSays | deploy/operations/yolpol-offserver-durability.py:463-508 | data is accepted iff it is the canonical print, within 8192 bytes, of an object that holds under each of the nineteen keys what the context, the pair and a fresh destination check say |
| DurabilityEvidence.ValidContextsAre | deploy/operations/yolpol-offserver-durability.py:236-251 | which contexts are valid |
| DurabilityEvidence.FingerprintsAre | deploy/operations/yolpol-offserver-durability.py:72 | a fingerprint is the name of a migration, a colon and a digest |
| DurabilityEvidence.RemoteIdentityIsPlain | deploy/operations/yolpol-offserver-durability.py:421-427 | a remote identity names no URL and no user |
| DurabilityEvidence.OneContext | deploy/operations/yolpol-offserver-durability.py:435-508 | no data is evidence for two contexts or two pairs, at any times |
| DurabilityEvidence.AttestedOnce | deploy/operations/yolpol-offserver-durability.py:435-508 | an evidence file attests at most one context |
| DurabilityEvidence.EvidenceStore.Publish | deploy/operations/yolpol-offserver-durability.py:511-537 | an existing evidence file is never overwritten, even by a writer that loses a race |
| DurabilityEvidence.EvidenceStore.PerformDurability | deploy/operations/yolpol-offserver-durability.py:540-570 | evidence is returned only for a file that was absent before and now attests it, key by key, from a confirmation that names this backup and its two digests; a refusal before publication changes nothing |
| DurabilityEvidence.EvidenceOnce | deploy/operations/yolpol-offserver-durability.py:511-570 | over any run, evidence is returned at most once per deployment and stays in place |
| TemporarySpace.VerificationDirectory.CopyAndVerify | deploy/operations/yolpol-offserver-durability.py:1233-1304 | peak use stays within the requirement less the reserve exactly up to that size of the artifact being staged; no bytes are written without admission; it returns only after staging, upload, receipt, signature and both comparisons of the durable copy succeeded, in this order |
| TemporarySpace.VerificationDirectory.Poll | deploy/operations/yolpol-offserver-durability.py:1036-1099 | over all attempts the directory never holds more than one receipt and one signature beside what it held before |
| TemporarySpace.VerificationDirectory.Stage | deploy/operations/yolpol-offserver-durability.py:1173-1224 | the staged copy never exceeds source or maximum, and is accepted only at the expected size |
| TemporarySpace.TotalWithout | deploy/operations/yolpol-offserver-durability.py:953-963 | the bytes of a directory are those of one file plus those of the others |
| TemporarySpace.RequirementIs | deploy/operations/yolpol-offserver-durability.py:953-963 | the required free space in bytes |
| LargestIds.LargestIsTop | deploy/control-plane/yolpol-deployment-agent.py:161-162 | the remembered ids are ascending, bounded, and no other id is larger than one of them |
| LargestIds.LargestOfUnion | deploy/control-plane/yolpol-deployment-agent.py:145-163 | trimming to the largest ids before adding more loses none of the largest of all |
| DeploymentAgent.SoundRemembersLargest | deploy/control-plane/yolpol-deployment-agent.py:161-163 | a sound state holds the largest recorded ids, at most 200, strictly increasing |
| DeploymentAgent.DelayIsBounded | deploy/control-plane/yolpol_control_plane.py:784-794 | delays lie in 15 to 900 seconds and grow with failures when the server gives no advice |
| DeploymentAgent.DelayIs | deploy/control-plane/yolpol_control_plane.py:784-794 | the delay is what the server asks for, five seconds after its reset, or 15 seconds doubled with each failure, within its bounds |
| DeploymentAgent.Agent.SubmitPage | deploy/control-plane/yolpol-deployment-agent.py:145-167 | only ids outside the remembered list are submitted, oldest first; every entry is known or submitted on return, and the page is settled unless a retry is due |
| DeploymentAgent.Agent.Poll | deploy/control-plane/yolpol-deployment-agent.py:127-172 | memory and file stay sound: accepted by `load_state`, with tags only of pages all of whose entries were handled or rejected for good; such a page stores its tag, an unchanged one changes nothing, and an unavailable server sets the time of the next poll |
| DeploymentAgent.Agent.RunOnce | deploy/control-plane/yolpol-deployment-agent.py:186-214 | an invocation stopped anywhere leaves a sound file; it does nothing before its time, succeeds only if both environments are settled, and schedules the next poll 15 seconds later, or at least that after a failure, which it counts |
| ContinuousWorker.FailureDelayIsBounded | tooling/workers/continuous-worker-runtime.ts:76-79 | failure delays lie in 5 to 60 seconds and never shrink as failures accumulate |
| ContinuousWorker.FailureDelayIs | tooling/workers/continuous-worker-runtime.ts:76-79 | the delay is the poll interval but at least five seconds, doubled up to the fifth failure, at most a minute |
| ContinuousWorker.WaitAfterSuccess | tooling/workers/continuous-worker-runtime.ts:116-135 | after a success the worker waits for the poll interval |
| ContinuousWorker.WaitsGrowUntilSuccess | tooling/workers/continuous-worker-runtime.ts:120-135 | in a run, waits do not shrink until an execution succeeds |
| ContinuousWorker.RunContinuousWorker | tooling/workers/continuous-worker-runtime.ts:81-151 | after the first signal nothing is executed; a run that ends has closed its runtime once and removed each listener once iff no removal threw; it ends without a failure only by a signal |
| ContinuousWorker.RemovalCanSkipClose | tooling/workers/continuous-worker-runtime.ts:139-147 | a run whose first removal throws never closes its runtime and keeps both listeners |
| ContinuousWorker.PollWait.Happens | tooling/workers/continuous-worker-runtime.ts:63-74 | a wait resolves once, at the first of timer and abort, and leaves neither behind |
| BackupIds.LaterNameIsNotEarlier | tooling/monitoring/operations-metrics.ts:172-178 | names with real dates order as text as they order in time |
| BackupIds.NamesAre | tooling/monitoring/operations-metrics.ts:172-175 | a name is prefix, environment and stamp, with or without a revision of 7 to 64 hexadecimal digits |
| BackupIds.StampExample | tooling/monitoring/operations-metrics.ts:174-177 | what each part of a stamp means |
| BackupIds.ClockIsUnix | tooling/monitoring/operations-metrics.ts:177 | seconds are counted from 1970 |
| BackupIds.DaysAreCounted | tooling/monitoring/operations-metrics.ts:177 | consecutive days are 86400 seconds apart, over months, years and leap days |
| BackupSelection.Inspect | tooling/monitoring/operations-metrics.ts:216-247 | the loop from the last name down reports the last valid one, its age, and whether the scan succeeded |
| BackupSelection.AgeIsElapsed | tooling/monitoring/operations-metrics.ts:237 | the age is the elapsed time in full seconds, or 0 |
| BackupSelection.NamesAreListed | tooling/monitoring/operations-metrics.ts:224-225 | the candidates are exactly the names whose manifest is listed |
| BackupSelection.ReportedIffExists | tooling/monitoring/operations-metrics.ts:216-247 | a pair is reported iff a valid one exists |
| BackupSelection.ReportedIsNewest | tooling/monitoring/operations-metrics.ts:216-247 | the reported pair is the newest, if all valid names hold real dates |
| BackupSelection.NewestIffParsesInOrder | tooling/monitoring/operations-metrics.ts:172-247 | the metric names the newest valid pair, for every listing and set of pairs, iff the date parser gives times in the order of the names |
| BackupSelection.UnrealDateMisleads | tooling/monitoring/operations-metrics.ts:172-178 | a pair of names for which the older one is reported, where impossible dates roll over; such a parser is out of order |
| BackupSelection.BackupMetricCache.Read | tooling/monitoring/operations-metrics.ts:300-318 | cached answers are younger than the interval, scans never overlap and begin at least the interval apart |

## Left out

- HTTP requests, OIDC and signature checks, container operations, SFTP and OpenSSL: uninterpreted steps with any outcome; which releases the policy accepts is a parameter.
- The ledger's timestamps, failure stages, dispositions and durability summary, and ledger files with malformed records: no branch that is modelled depends on the first four, and the last is refused before any decision.
- File owners, modes, ACLs and symbolic links: metadata checks that only add failing branches, which the model allows anywhere.
- Leftover temporary files of `atomic_write`, and directory entries that power loss takes back before they were flushed: a returned rename is taken as durable.
- ReleaseHost.AtomicWrite: works on the map of a directory's files, because the temporary file it renames is not visible under the names the programs read.
- ReleaseController.Controller.Perform: how the migration library applies migrations that do not extend those in the database is open; it is assumed only that none is taken back.
- ReleaseController.Controller.TakeSnapshot: rendered runtime files are an offer from outside; that rendering overrides exactly the replaced keys is proved in `RuntimeEnvironment`.
- The transaction deadline and `request_root` cleanup: they only add failures.
- FlatJson.StrictObject: nested values, floating-point numbers, lone surrogate escapes, integers beyond Python's digit limit and the UTF-8 decoding itself are not modelled; objects that hold such values are refused here, and by the later field and canonical-print checks there.
- DurabilityEvidence.Context: the patterns are predicates on characters; the file checks of `inspect_backup_pair` and the configuration are not part of this model.
- RuntimeEnvironment.RenderRuntime: the ASCII decoding of the file and the value rules of each environment are parameters.
- ComposeRewrite: the service fields that the conversion removes or adds around `normalize` are fixed by equality checks before it, and its last step, which renames the environment value in three places, is not part of this model.
- DeploymentAgent: a state file edited by hand with ids that are not canonical decimals is not modelled; the agent writes canonical ones only.
- ContinuousWorker: logging is taken not to throw, and signals arrive at awaits or while listeners are added.
- BackupSelection: the order of names with characters outside the basic plane, which no valid backup name has, and the checks on the two files of a pair, which are a parameter.
- Base64Url: the padded encoder and decoder are Python's; the model writes out sections 4 and 5 of RFC 4648 for them.
- The fixed tables of the deployment policy, intent fields, status texts and metric rendering: equality checks and formatting.
