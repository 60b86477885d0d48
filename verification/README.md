# A verified model of podman-api

podman-api is a control plane that deploys, moves, backs up and restores stateful pods
across hosts. This project models its protocols and stateful algorithms in Dafny and
proves what they promise. Podman, SSH, the blob store and SQLite appear only through what
their callers rely on: a host is a map of volumes with a pod and a desired-state row, a
tar stream is a sequence of entries, a digest is the bytes it is taken of.

`dafny verify dfyconfig.toml` checks the whole project.

## What is modelled

- **Cold migration and its crash recovery** (`Migration*`). A transition system over the
  primitive effects on two hosts: the daemon may crash between any two of them, including
  inside a delete and inside recovery itself, an effect may report failure whether or not
  it happened, and running pods keep writing. `MigrationSafety` proves that the source's
  data, up to its last write before it was stopped, is complete on at least one host in
  every state of every run. `MigrationExact` shows that this holds if and only if nothing
  is at stake at the destination: a job can crash before it checks there, and recovery
  takes whatever has a pod and a row for the finished copy. `MigrationLimits` gives two
  more limits with their exact conditions, a template edit that declares one more volume
  once the copy was listed and what a source restarted by a rollback may still lose.
  `MigrationRecovery` proves that recovery decides the same way however often it crashes
  and is run again, and `MigrationOutcome` that what a job or a pass reports is so. `MigrationDaemon` is the job and the recovery pass as imperative code
  whose recorded effects form a run of that system; without faults its outcome is fixed by
  the hosts it finds, and a rollback always starts the source again.
- **The streaming tar filter** (`TarFilter`, `TarPatterns`, `TarMeaning`, `TarSurvival`,
  `TarAccounting`, `TarReexport`, `Manifests`, `Comparison`, `Paths`). The one-pass filter with hard-link promotion, as a
  class with its three maps and counter. Surviving names keep their content, no link
  dangles, which entries survive is characterised exactly, bytes are conserved, memory
  stays under its cap, and it is settled when a restored filtered backup verifies: the
  archive is unpacked into a tree with hard-link classes and exported again by a walk.
  What a path, a pattern and a comparison of volumes mean is told apart from how they are
  computed: two paths clean alike exactly when they lead to the same place from everywhere,
  a pattern with a trailing globstar is for what lies below, and two exports compare equal
  exactly when they are of the same volume, Litestream's shadow files aside.
  Hard links are typeflag '1' of the ustar interchange format of IEEE Std 1003.1.
- **Backup scope, export, dedupe and restore** (`BackupScope`, `Backups`, `BackupPolicy`,
  `BackupJob`, `BackupCrash`, `BackupDedupe`, `Restore`). Admission decided exactly, the
  recorded volumes characterised exactly, both also in an operator's terms, a veto that
  survives renames, the coverage test proved exact, and a restore that never removes a
  volume it has no copy of and succeeds exactly when no call fails and every blob holds what
  was recorded. The backup job and the restore are also given
  as functions of how each foreign call turns out, failing with or without its effect
  (`Replies`), and what they leave behind is proved over all of those, for runs that return
  and for a daemon that dies between any two effects.
- **Shared-network DNS claims** (`DnsClaims`, `DnsRegistry`, `DnsService`). No two instances
  on a host answer to the same name over every serialized run of applies, deletes, renames
  and template edits.
- **Concurrent managers**, each as a transition system over all callers and a class whose
  methods are its critical sections: every method is one step of that system and keeps its
  invariant, so what it returns is told by the system. The SSH pool (`SshPool`,
  `SshPoolSafety`, `SshPoolEntries`), the inventory cache (`InstanceCache`), the draining
  tunnel (`Tunnel`), the job runner with restarts and reconcile passes (`Runner`), and the
  fair rotation of its reserved pool (`KindRotation`).
- **Two list algorithms**: the evacuation planner (`Evacuation`, `EvacuationPlanner`) and
  registry tag resolution (`TagListing`), the latter following Link headers (section 3 of
  RFC 8288).

Assumptions of the migration theorems: volume verification is on, the template does not
change during a job (except where a lemma says so), a stopped source is not written apart
from the ignored shadow files, and nothing else plays a pod for the instance until the job
is resolved; in particular boot converge is not an environment step.

Where the code does not meet a property on all inputs, one lemma gives a failing case and
another the exact condition:

- A migration keeps the source's data if and only if the destination does not start with a
  pod together with a row, or the source has none of the declared volumes, or its pod is
  gone and the destination has the same data (`MigrationExact.NoDataLossIff`).
- No source volume that was not copied is pruned if and only if the template, as it is at
  the reap, declares none that it did not declare before (`MigrationLimits.LateDeclarationIff`).
- A source restarted by a rollback keeps what it writes if and only if the destination does
  not have a pod together with a row (`MigrationLimits.RestartedSourceSurvivesIff`).
- An entry no pattern names is written if and only if it is not a link to something dropped
  that could not be kept (`TarSurvival.EmittedIff`).
- A filtered backup verifies if and only if the export spells the name of every promoted
  link that others were redirected to in its clean form
  (`TarReexport.FilteredBackupVerifiesIff`).
- A request dropped as covered is honoured, should the covering job run through, if and
  only if that job is a snapshot that the template, rows and host it then finds admit and
  every volume named is still known, not vetoed and there, or it is a live one that can run
  (`BackupDedupe.CoveredRequestHonouredIff`).
- A backup that returns brings the pod back if and only if the engine's reply to a stop is
  never lost, and leaves only complete rows to be trusted if and only if the store's reply
  is not (`BackupJob.PodBackIff`, `BackupJob.CompleteRowsTrustedIff`). After a crash, a
  reconcile pass that gets through leaves the pod running if and only if the crash did not
  come between completing the row and starting the pod (`BackupCrash.PassBringsPodBackIff`).
- A restore that returns with a failure keeps the desired-state row if and only if no
  ingress proxy is configured and the store does not fail (`Restore.RestoreKeepsRowIff`,
  `Restore.TeardownKeepsRowIff`). A restore that is cut short by a crash keeps it if and only
  if the crash does not come between the deletion of the row and the next write of it
  (`Restore.CrashKeepsRowIff`).
- A template edit that skips the conflict check is safe if and only if it does not add
  membership of the ingress network (`DnsRegistry.SkippingIsSafeIff`).
- A reader that joins a sweep sees every change before the latest invalidation if and only
  if the sweep began after it (`InstanceCache.JoinIsFreshIff`).
- A confirmed cancellation is recorded if and only if no restart comes first, unless the row
  itself was withdrawn (`Runner.CancelAndPoolSafety`, `Runner.ConfirmedCancelForgotten`).

## Model

| member | source | states |
|---|---|---|
| MigrationSafety.NoDataLoss | internal/instance/migrate.go:237-442 | In every state of every run, crashes and repeated recoveries included, the source's data up to its last write before the stop is complete on at least one host, given the destination does not start with a pod and a row |
| MigrationSafety.PrunesOnlyTheReplaced | internal/instance/service.go:2053-2109 | A source volume disappears only once the destination was seen ready, has its row persisted and holds the whole snapshot; a destination volume only while the source has pod, row and snapshot |
| MigrationSafety.InvNext | internal/instance/migrate.go:330-442 | Every step of the job, of a delete, of recovery and of the environment keeps the protocol's invariant |
| MigrationSafety.InvPath | internal/instance/reconcile.go:36-229 | From any sound state, whatever follows, the snapshot stays complete on one host |
| MigrationExact.NoDataLossIff | internal/instance/reconcile.go:96-229 | Every run keeps the data if and only if the destination does not start with a pod and a row, or there is nothing to keep, or the source's pod is gone and the destination already has the same data |
| MigrationExact.OccupiedDestLosesData | internal/instance/reconcile.go:96-229 | The run that loses data otherwise: a crash before the destination check, then a recovery that reaps the uncopied source |
| MigrationExact.OccupiedDestLosesWrites | internal/instance/reconcile.go:96-229 | The same with a destination that has all the data there was, which lacks what the source writes meanwhile |
| MigrationExact.LeftoverCopyLosesWrites | internal/instance/migrate.go:276-297 | A copy left by an earlier attempt whose rollback restarted the source and failed to reap: a second attempt that crashes loses every write since |
| MigrationLimits.LateDeclarationIff | internal/instance/service.go:1985-2050 | From every sound state of the reap, no uncopied source volume is pruned on any continuation under the later template if and only if every source volume it declares was declared before |
| MigrationLimits.LateDeclarationLosesVolume | internal/instance/service.go:1985-2050 | A whole run under the first template and its continuation under the second, after which the newly declared volume is on neither host |
| MigrationLimits.RestartedSourceSurvivesIff | internal/instance/reconcile.go:96-220 | Once the job is past copying, unfinished and not deleting at the source, the source keeps its volumes and every write on every continuation if and only if the destination lacks a pod or a row, or no source volume is declared |
| MigrationLimits.RestartedSourceLosesWrite | internal/instance/migrate.go:276-297 | A whole run from an empty destination: the rollback restarts the source, a crash comes before its reap, recovery adopts the destination, and what the source wrote in between is on neither host |
| MigrationRecovery.RecoveryIsConsistent | internal/instance/reconcile.go:72-229 | Through any number of crashes, retries and changes of the source's health a conclusive outcome is the verdict of the state recovery started from; roll-forward leaves the row on the destination only, roll-back on the source only; orphaned means a pod on the destination alone, not found a pod on neither |
| MigrationRecovery.RestoredSourceRuns | internal/instance/reconcile.go:200-220 | Whatever happens around it, a rollback gets past restoring the source only with the source running, its volumes and the destination as they were |
| MigrationRecovery.RolledBackWasStarted | internal/instance/reconcile.go:200-220 | Over every run of recovery, an answer of rolled back means that in this very run the source was started and found running before the destination was touched |
| MigrationRecovery.InconclusiveTouchesNothing | internal/instance/reconcile.go:221-229 | An orphaned destination and a vanished instance are left as found, over every run of recovery |
| MigrationOutcome.ReportsAreTrue | internal/instance/migrate.go:237-318 | Over every run from a free destination, a migrate that reports success, or a recovery that reports having rolled forward, left the instance on the destination only with all the source held when it was stopped; one that reports having rolled back left it on the source only |
| MigrationOutcome.StepTells | internal/instance/service.go:2053-2109 | Every step of the job, of a delete, of recovery and of the environment keeps every report true |
| MigrationDaemon.Daemon.Migrate | internal/instance/migrate.go:237-318 | The job's effects are a run of the system and safe throughout, and a success is real whatever failed; without faults it succeeds exactly when it may start and the destination becomes healthy, and then has moved exactly the declared volumes, content and all; refused, it leaves both hosts as they were; unhealthy, the source runs again with its data and the destination has no pod, row or declared volume; other volumes are spared |
| MigrationDaemon.Daemon.PostStop | internal/instance/migrate.go:330-442 | Commits only to a ready destination with its row persisted; without faults it succeeds exactly on a healthy destination that had no pod, and every declared volume arrives with the source's last content |
| MigrationDaemon.Daemon.PreflightDest | internal/instance/migrate.go:258-264 | Passes only a source with its row and a destination without a pod |
| MigrationDaemon.Daemon.StopSource | internal/instance/migrate.go:266-273 | On success the source is settled and what must not be lost is fixed; a lost reply leaves that open |
| MigrationDaemon.Daemon.ListVolumes | internal/instance/migrate.go:386-389 | Exactly the declared volumes the source has |
| MigrationDaemon.Daemon.CopyVolumes | internal/instance/migrate.go:386-416 | Copies and verifies volume by volume, touching only the destination's copies |
| MigrationDaemon.Daemon.Transfer | internal/instance/service.go:2497-2532 | The comparison value is taken of what was exported; a failed import may leave anything |
| MigrationDaemon.Daemon.Verify | internal/instance/migrate.go:405-415 | Goes on only if the copy shows the exported manifest |
| MigrationDaemon.Daemon.InspectDest | internal/instance/migrate.go:418-435 | Goes on to play only where no pod exists, and to a rollback otherwise |
| MigrationDaemon.Daemon.PlayDest | internal/instance/migrate.go:418-435 | Plays the pod over every volume as it is, or leaves the destination for a rollback |
| MigrationDaemon.Daemon.PersistDest | internal/instance/migrate.go:418-435 | Goes on only with the row persisted, and changes nothing else |
| MigrationDaemon.Daemon.WaitRunning | internal/instance/migrate.go:446-465 | Commits only to a destination observed ready |
| MigrationDaemon.Daemon.CommitSource | internal/instance/migrate.go:299-305 | Reaps the source, which then keeps exactly its undeclared volumes |
| MigrationDaemon.Daemon.Delete | internal/instance/service.go:2053-2109 | Pod, then prune, then row, on that host only; without an error the pod and the row are gone; without faults the host keeps exactly its undeclared volumes |
| MigrationDaemon.Daemon.PruneVolumes | internal/instance/service.go:2043-2049 | Best effort, one declared volume at a time, and no other volume |
| MigrationDaemon.Daemon.Rollback | internal/instance/migrate.go:276-297 | Restarts the source as it was and reaps the destination |
| MigrationDaemon.Daemon.RollForward | internal/instance/reconcile.go:125-193 | If it resolves, the destination is as it was and the source has neither pod nor row; without faults it does, and the source has no declared volume left |
| MigrationDaemon.Daemon.RollBack | internal/instance/reconcile.go:200-220 | If it resolves, the source is running and the destination has neither pod nor row; without faults it does, the source keeps volumes and row, and the destination is reaped |
| MigrationDaemon.Daemon.Inspect | internal/instance/reconcile.go:268-322 | Changes nothing; an inspection that fails tells nothing; trusts the destination exactly when it is ready and its row persisted |
| MigrationDaemon.Daemon.ReconcileMigrate | internal/instance/reconcile.go:36-229 | A pass that resolves, whatever failed on the way, answers the verdict the hosts imply, with the source running if rolled back and gone if rolled forward; without faults it always resolves and leaves exactly the stated hosts; from a sound state no data is lost on the way |
| Manifests.FirstDiff | internal/instance/manifest.go:178-202 | Equal exactly when the manifests are equal, otherwise the least path at which they differ |
| Manifests.BuildManifestKeys | internal/instance/manifest.go:76-173 | A manifest lists exactly the cleaned paths of the stream that comparison does not ignore |
| Paths.CleanIdempotent | internal/instance/manifest.go:86-92 | Cleaning a path twice is cleaning it once, so a promoted name is found again |
| Paths.CleanKeepsPlace | internal/instance/manifest.go:86-92 | A cleaned path leads to where the path led, from every directory |
| Paths.CleanSameIff | internal/instance/manifest.go:86-92 | Two paths clean to the same exactly when both or neither start at the root and they lead to the same place from everywhere |
| Paths.IgnoredTextIff | internal/instance/manifest.go:204-212 | A path is ignored exactly when it can be cut after a -litestream that ends an element |
| Paths.IgnoredIff | internal/instance/manifest.go:204-212 | A path is ignored exactly when some element of it ends in -litestream |
| Comparison.ComparedIff | internal/instance/manifest.go:76-173 | Every path of the stream but a shadow is fingerprinted, and nothing else |
| Comparison.CompareEqualIff | internal/instance/manifest.go:178-202 | Two exports compare equal exactly when, outside the shadows, they have the same paths and the same kind, bytes or target at each |
| Comparison.CorruptionIsSeen | internal/instance/manifest.go:178-202 | A file that came back with other bytes never compares equal |
| TarFilter.DropFilter.MatchesEntry | internal/instance/tarfilter.go:129-149 | True exactly when a pattern names the entry, with the contents-only and directory rules |
| TarPatterns.MatchesIff | internal/instance/tarfilter.go:129-149 | Given how the matcher reads a trailing globstar, an entry is excluded exactly when it is no directory and some pattern is meant for it: for what lies below, if it ends in a globstar, else for what it matches |
| TarPatterns.ContentsMatched | internal/instance/tarfilter.go:88-100 | The pattern for the contents of a directory matches exactly the entries below it that are no directories |
| TarPatterns.ContentsExcluded | internal/instance/tarfilter.go:129-206 | Over a whole archive it takes everything below the directory but directories, and neither the directory nor anything else, unless that is a hard link to what went |
| TarPatterns.RescuedIff | internal/instance/tarfilter.go:23-34 | Under a backup's bounds the link to an excluded file takes its place exactly when the file has at most 64 MiB |
| TarFilter.DropFilter.DecideEntry | internal/instance/tarfilter.go:169-206 | Decision, rewritten header and new memory are those of the one-step specification |
| TarFilter.ParseTar | internal/instance/manifest.go:76-173 | The archive written, the statistics and the filter's memory are the fold of the step over the stream, and the manifest is that of the archive written |
| TarFilter.FilterTar | internal/instance/tarfilter.go:219-236 | Refuses exactly when a pattern is invalid; otherwise its manifest is that of its output |
| TarMeaning.FilterPreservesMeaning | internal/instance/tarfilter.go:169-213 | With distinct names and links pointing back, every surviving name unpacks to what it did before and every link in the output follows its target |
| TarSurvival.EmittedIff | internal/instance/tarfilter.go:169-213 | With distinct names, an entry is in the output if and only if no pattern names it and, if it is a link to an entry that is not, that one is a file whose body there was room for when it was read |
| TarSurvival.LargeTargetTakesLink | internal/instance/tarfilter.go:190-196 | A link no pattern names is missing from the output, its target being an excluded file too large to be kept |
| TarSurvival.UnmatchedEntriesSurvive | internal/instance/tarfilter.go:129-213 | If links target files and the excluded targets they need fit, with all bodies small enough to keep under the total cap, an entry is missing exactly when a pattern names it |
| TarAccounting.BytesConserved | internal/instance/manifest.go:88-120 | File bytes in equal bytes out plus bytes excluded, and entries excluded equal drops minus promotions, for any stream |
| TarAccounting.MemoryBounded | internal/instance/tarfilter.go:169-213 | At every point bodies held total at most the counter, the counter at most its cap, and no statistic is negative |
| TarAccounting.BufferedExact | internal/instance/tarfilter.go:169-213 | With distinct names the counter equals the bytes held |
| TarAccounting.FilterKeepsParents | internal/instance/tarfilter.go:142-145 | A parent-closed archive stays parent-closed |
| TarReexport.ExportVerifiesIff | internal/instance/backup.go:1568-1591 | For an archive in the order of the export's walk, the re-export of its unpacked tree compares equal exactly when the archive listed every directory that counts and spells each link as the walk does |
| TarReexport.FilteredBackupVerifiesIff | internal/instance/tarfilter.go:169-206 | Restoring a filtered export verifies exactly when each link redirected to a promoted name finds that name spelled clean by the export, whatever the patterns |
| TarReexport.LeaderIsRoot | internal/instance/manifest.go:160-171 | In such an archive the walk comes first upon a file under the name the archive carries it by |
| TarReexport.RedirectDoesNotVerify | internal/instance/tarfilter.go:174-177 | An excluded file with two surviving links, on an export that spells the first link's name otherwise: the recorded manifest differs from that of every export of the restored volume |
| TarReexport.RedirectIsExported | internal/instance/backup.go:1568-1591 | And there is such an export |
| BackupScope.InstanceVolumes | internal/instance/service.go:2434-2455 | Lists exactly the declared volumes that exist, once each, and fails exactly when one of them cannot be inspected |
| BackupScope.IsNoneIff | extension/backup.go:45-47 | A marker vetoes exactly when it is the word none in whatever case between white space |
| BackupScope.IsSpaceIff | extension/backup.go:45-47 | White space is exactly what Unicode calls it |
| BackupScope.AppliedVolumeLoss | internal/instance/backup.go:678-711 | Lost, recovered and their applied-time metadata are exactly those of the applied names absent, and present but no longer declared; fails exactly when one of the latter cannot be inspected |
| BackupScope.ClassifyVolumes | internal/instance/backup.go:504-561 | The export set is exactly what the instance holds, the metadata map answers each with its effective marker, and it fails exactly when some known volume cannot be inspected |
| Backups.AnyExportableVolume | internal/instance/backup.go:576-592 | True exactly when some declared or applied volume is not vetoed |
| Backups.AppliedLossCorroborated | internal/instance/backup.go:617-643 | Exactly the lost volumes an earlier complete backup holds, in order |
| Backups.DeclaredByFullName | internal/instance/backup.go:197-202 | The declared metadata, keyed by full volume name |
| Backups.CheckUnscoped | internal/instance/backup.go:265-404 | The chain of guards admits exactly the allowed unscoped backups |
| Backups.CheckScoped | internal/instance/backup.go:405-439 | Admits a scope exactly when every volume is declared, unvetoed and present |
| Backups.CheckBackupable | internal/instance/backup.go:182-440 | Admits a backup exactly when it is allowed and the host answers for the volumes it is decided by, and reports the host exactly when only that is missing; the store-only half is exact too and never asks the host |
| BackupPolicy.UnscopedAdmittedIff | internal/instance/backup.go:265-404 | With data on the host, an unscoped backup is allowed exactly when the template declares something and there is something to record; without, exactly when nothing it was applied with was ever backed up and the template declares nothing or something that could be recorded |
| BackupPolicy.ScopeAdmittedIff | internal/instance/backup.go:405-439 | A scope is allowed exactly when the last declaration of each of its volumes does not say none and the volume is on the host |
| BackupPolicy.VetoedIff | internal/instance/backup.go:531-559 | A volume is vetoed exactly when its last declaration says none or, no longer declared, what it was applied with did |
| BackupPolicy.CapturedIff | internal/instance/backup.go:504-561 | An unscoped backup records a volume exactly when it is declared or was applied, is on the host, and nothing says none |
| Backups.ExportSet | internal/instance/backup.go:802-840 | A scoped run exports exactly the requested volumes; an unscoped one the held volumes whose effective marker is not `none`; no volume twice, each under its effective exclude patterns |
| Backups.CapturedAfterEdit | internal/instance/backup.go:531-559 | After an apply and any template edit, a dropped or renamed volume is captured exactly when it was unvetoed as applied |
| BackupJob.Service.Backup | internal/instance/backup.go:718-892 | Admitted exactly when it is allowed and the host answers; a refused request changes nothing and an admitted one runs as specified whatever the calls reply, over exactly the volumes of the scope, each under its effective exclude patterns; a success leaves a complete row of them with their blobs, and is empty only when nothing is held; other backups are untouched |
| BackupJob.PodRunsIff | internal/instance/backup.go:782-892 | For all replies, the pod runs afterwards exactly when it did before and the run ended before the stop, or the stop failed without effect, or the start took effect |
| BackupJob.CompleteRowIff | internal/instance/backup.go:872-892 | For all replies, a complete row is left exactly when recording it took effect, and the run succeeds exactly when that was also reported; then every blob is there |
| BackupJob.RowAfterRun | internal/instance/backup.go:753-892 | For all replies, the row a run leaves: complete if recording it took effect, else marked failed if it was begun and marking did, else still being created |
| BackupJob.BlobsAfterRun | internal/instance/backup.go:772-843 | Of a run that gets to exporting, the blobs left are what it wrote, all of it if it succeeds and otherwise what a failing cleanup leaves |
| BackupJob.FailureCleansUp | internal/instance/backup.go:772-781 | A run that fails after its row was created leaves no blob of its own, if its cleanup succeeds |
| BackupJob.PodBackIff | internal/instance/backup.go:782-800 | Unless starting fails, every run that returns brings a running pod back if and only if a stop's reply cannot be lost |
| BackupJob.CompleteRowsTrustedIff | internal/instance/backup.go:872-886 | Every complete row has its blobs, and only successes leave one, if and only if the store's reply cannot be lost |
| BackupJob.LostStopLeavesPodDown | internal/instance/backup.go:797-799 | A stop that took effect and reported an error leaves the pod down with no start attempted |
| BackupJob.LostCompletionLeavesHollowRow | internal/instance/backup.go:772-781 | A completion that took effect and reported an error leaves a complete row whose blobs the failure path deleted |
| BackupJob.OthersUntouched | internal/instance/backup.go:772-781 | No run touches another backup's row or blobs |
| BackupJob.Service.ReconcileBackup | internal/instance/backup.go:1644-1700 | A pass answers success only for a complete row, which it leaves alone, and failure only with the row absent or marked |
| BackupJob.PassSettlesIff | internal/instance/backup.go:1644-1700 | A pass has the last word exactly unless it cannot read the row, or there is an incomplete one and it cannot mark it or cannot start a pod that is there on a known host |
| BackupJob.PassLeaves | internal/instance/backup.go:1644-1700 | Which pass starts the pod, marks the row and reaps blobs, for all replies |
| BackupCrash.EffectsAddUp | internal/instance/backup.go:753-892 | The listed effects, all done in order, leave what the run leaves |
| BackupCrash.CrashThenPass | internal/instance/backup.go:1644-1700 | For every crash point and every run, what row, verdict and pod a pass that gets through leaves, in terms of what had been done |
| BackupCrash.PassBringsPodBackIff | internal/instance/backup.go:1656-1659 | A pod that ran before runs after the pass if and only if the crash did not come between completing the row and starting the pod |
| BackupCrash.CrashLeavesPodDown | internal/instance/backup.go:1656-1659 | The crash after which the pass answers success and leaves the pod down |
| BackupCrash.PassLeavesNoBlobs | internal/instance/backup.go:1664-1672 | A pass whose cleanup succeeds leaves blobs only to a complete row, and other backups' as they were |
| BackupJob.Service.ExportAll | internal/instance/backup.go:813-843 | Writes one blob per volume under its exclude patterns, in order, up to the first failure |
| BackupJob.Service.Fail | internal/store/sqlite_backups.go:42-64 | Cannot unmark a row that is complete, and reaps only this backup's blobs |
| BackupDedupe.ScopeCovers | internal/backupctl/controller.go:233-250 | Decides coverage of one scope by another |
| BackupDedupe.CoversTransitive | internal/backupctl/controller.go:233-250 | Coverage is reflexive and transitive |
| BackupDedupe.CoversIff | internal/backupctl/controller.go:233-250 | One scope covers another exactly when, on every instance and host that admit both, it records at least as much |
| BackupDedupe.Controller.BackupInFlightCovering | internal/backupctl/controller.go:266-284 | True exactly when a queued or running job for the instance covers the scope |
| BackupDedupe.Controller.BackupReconciling | internal/backupctl/controller.go:296-311 | True exactly when a job for the instance is being reconciled |
| BackupDedupe.SameRequestCoveredIff | internal/backupctl/controller.go:266-284 | A request is handled by a job made for the very same request exactly while that is queued or running, and never by one for another instance |
| BackupDedupe.PutOffIff | internal/backupctl/controller.go:296-311 | A request is put off exactly when some job for the same instance, of whatever scope and mode, is being reconciled |
| BackupDedupe.Controller.EnqueueBackup | internal/backupctl/controller.go:150-226 | Enqueues exactly when the scope is good, nothing is being reconciled, no job in flight covers it and the backup is admitted; answers handled exactly when a job in flight covers it, and then that job records what was asked exactly when what it later finds lets it; changes nothing otherwise |
| BackupDedupe.CoveredRequestHonouredIff | internal/instance/backup.go:728-744 | For every request and covering job, whatever template, rows and host the job finds: what it records holds all that was asked if and only if it is an admitted snapshot and every named volume is known, unvetoed and there, or a live job for one volume that declares how |
| BackupDedupe.LiveCapableIff | internal/instance/backup.go:910-950 | A live job can run exactly when its scope is one volume whose declaration says how |
| BackupDedupe.AbsentVolumeSwallowed | internal/backupctl/controller.go:160-204 | An unscoped snapshot job swallows a request for a declared volume the host lacks, and succeeds without it |
| BackupDedupe.VetoedSinceSwallowed | internal/instance/backup.go:728-744 | And one for a volume that is there when the request is answered and that an edit vetoes before the job starts |
| BackupDedupe.UnscopedLiveJobSwallowsRequests | internal/instance/backup.go:910-913 | An unscoped live-mode job counts as covering everything and can never record anything |
| Restore.Service.PreflightBlobs | internal/instance/backup.go:1524-1536 | Succeeds exactly when every blob of the backup can be opened, having opened each |
| Restore.Service.CheckRestorable | internal/instance/backup.go:1257-1288 | Passes exactly when the backup is complete, the host known and not draining, the row present and every blob readable |
| Restore.RestoredIff | internal/instance/backup.go:1297-1361 | For all ways the calls can turn out, a restore succeeds exactly when the row is there, no call fails and every blob holds what was recorded; the instance then has its pod and its row |
| Restore.ImportedVolumes | internal/instance/backup.go:1486-1592 | What the import leaves: volumes outside the backup as they were, and if all arrive every listed one as recorded |
| Restore.MissingIff | internal/instance/backup.go:1542-1567 | A volume that was there is missing afterwards exactly when its blob was found, its removal took effect and its creation was not reached or did not take effect; otherwise what it holds |
| Restore.ImportStops | internal/instance/backup.go:1486-1493 | Once a volume does not arrive, no later one is touched |
| Restore.TeardownKeepsRowIff | internal/instance/service.go:2053-2109 | Every failed teardown keeps the row if and only if there is no proxy to refresh and no deletion whose reply can be lost |
| Restore.RestoreKeepsRowIff | internal/instance/backup.go:1297-1361 | Every restore that returns with a failure keeps the row if and only if there is no proxy to refresh and the store does not fail |
| Restore.EffectsAddUp | internal/instance/backup.go:1297-1361 | The listed effects on pod and row, all done in order, leave what the restore leaves |
| Restore.CrashKeepsRowIff | internal/instance/backup.go:1336-1356 | A daemon that dies after any number of them leaves the row if and only if it does not die between the deletion of the row and the next write of it |
| Restore.NoCrashLosesRowIff | internal/instance/service.go:2053-2092 | No crash of a restore can lose the row if and only if the restore is refused or its teardown fails before the deletion |
| Restore.CrashStrandsInstance | internal/instance/backup.go:1278-1281 | Without a proxy, on a store that does not fail and with every call succeeding, a crash after the teardown loses the row, and every retry is refused |
| Restore.RefreshFailureLosesRow | internal/instance/service.go:2097-2101 | The restore that strands the instance: its pod and row are gone when the proxy refresh fails |
| Restore.Service.Replace | internal/instance/backup.go:1558-1567 | Removes only a volume whose blob is open, on record, and leaves of it what each call does, also when a failing one took effect |
| Restore.Service.RestoreVolume | internal/instance/backup.go:1542-1592 | Succeeds exactly when every call for the volume does and it then shows its recorded manifest up to ignored paths |
| Restore.Service.RestoreVolumes | internal/instance/backup.go:1486-1493 | Each listed volume in turn until one fails; succeeds exactly when all arrive |
| Restore.Service.Restore | internal/instance/backup.go:1297-1361 | Succeeds exactly when the row is there, no call fails and every blob holds what was recorded, and then every listed volume matches; on every exit no removal before the whole backup was preflighted under the lock and the volume's blob opened, every change on record, other volumes untouched, none touched by a refusal or a failed teardown; pod and row go through exactly the specified effects |
| DnsClaims.JoinNetworks | internal/instance/service.go:276-299 | Joins each wanted network once and loses no declared alias |
| DnsClaims.Join | internal/instance/service.go:285-297 | Adds one membership or merges its aliases into the one already there |
| DnsClaims.NewClaim | internal/instance/service.go:416-424 | The claim's names are the instance's names |
| DnsClaims.ClaimsIff | internal/instance/service.go:452-470 | An instance answers to a name on a network exactly when it joins it, by ingress or declaration, and the name is its template and slug joined by a dash, an alias declared there or, except on the ingress network, one of its containers |
| DnsClaims.ClaimedNames | internal/instance/service.go:452-470 | Exactly the names answered to on one network |
| DnsClaims.FirstNameConflictFor | internal/instance/service.go:503-537 | Reports a collision exactly when the subject shares a name with a peer, and names one |
| DnsClaims.NetworksChanged | internal/instance/templates.go:285-305 | Decides whether the declared networks look unchanged |
| DnsClaims.AliasesByNameAt | internal/instance/templates.go:285-305 | The last declaration of a network is the one compared |
| DnsClaims.UnchangedIff | internal/instance/templates.go:285-305 | On validated declarations, unchanged exactly when networks and aliases are equal as sets |
| DnsClaims.UnchangedAddsNothing | internal/instance/templates.go:285-305 | On any declarations, an unchanged verdict adds no membership and no alias |
| DnsRegistry.StepKeepsUnique | internal/instance/service.go:613-730 | Every operation keeps names unique, except the one edit that slips through |
| DnsRegistry.RunKeepsUnique | internal/instance/service.go:573-730 | So does every serialized run of applies, deletes, renames and template edits |
| DnsRegistry.ApplyRefusedIff | internal/instance/service.go:613-644 | An apply is refused exactly when its template is unknown or an instance on its host other than itself and the one it supersedes answers to one of its names |
| DnsRegistry.SkipsCheckIff | internal/instance/templates.go:103-108 | On validated templates the check is skipped exactly when networks, aliases and container names stay the same |
| DnsRegistry.DeletingFrees | internal/instance/templates.go:372-393 | A deleted instance keeps no name from anyone; a template goes exactly when no instance uses it; creating one again overwrites nothing |
| DnsRegistry.UncheckedEditGivesUpNames | internal/instance/templates.go:103-108 | An edit that skips the check and adds no ingress membership can only give names up |
| DnsRegistry.SlippedEditClashes | internal/instance/templates.go:103-108 | For every edit that skips the check and adds ingress membership, a store on which it breaks uniqueness |
| DnsRegistry.SkippingIsSafeIff | internal/instance/templates.go:103-108 | Skipping the check is safe on every store exactly when the edit does not add ingress membership |
| DnsService.Service.HostClaims | internal/instance/service.go:573-600 | One claim per instance of known template, each under the substituted templates |
| DnsService.Service.Excluding | internal/instance/service.go:635-644 | Drops exactly the named instances of the template |
| DnsService.Service.ValidateNetworkAliases | internal/instance/service.go:613-630 | Accepts an apply exactly when its names clash with no peer's |
| DnsService.Service.CheckTemplateNetworkConflicts | internal/instance/service.go:698-730 | Accepts an edit exactly when no instance of the template would clash on its host |
| DnsService.Service.CheckHost | internal/instance/service.go:710-728 | Clears a host exactly when no instance of the template there clashes |
| DnsService.Service.Apply | internal/instance/service.go:929-1000 | Persists exactly the allowed applies and keeps names unique |
| DnsService.Service.UpdateTemplate | internal/instance/templates.go:70-143 | Persists exactly the allowed edits and keeps names unique unless the edit slips through |
| SshPoolEntries.PoolEntry.CurrentClient | internal/podman/ssh_pool.go:163-170 | Hands out what the entry holds exactly when it was dialed with the parameters asked for and is not too old; then it is open, on an entry that may have been retired meanwhile |
| SshPoolEntries.PoolEntry.TakeStale | internal/podman/ssh_pool.go:207-229 | The client taken out is closed by this caller and nobody else; the caller dials exactly if the host is still in the pool |
| SshPoolEntries.PoolEntry.Store | internal/podman/ssh_pool.go:234-246 | A dialed client is kept and used exactly while the host is in the pool, and otherwise closed once |
| SshPoolEntries.PoolEntry.Invalidate | internal/podman/ssh_pool.go:252-262 | Closes the client exactly if it is still the one named, once, and never another one |
| SshPoolEntries.PoolEntry.Retire | internal/podman/ssh_pool.go:268-291 | The entry leaves the pool without a client, and the one it had is closed once |
| SshPoolSafety.NextKeeps | internal/podman/ssh_pool.go:114-291 | Every lock region, the lookup and the check apart, keeps pool, gate, ownership and use invariants |
| SshPoolSafety.PoolOwnership | internal/podman/ssh_pool.go:114-291 | Over all interleavings every dialed client is held by one entry or one caller or was closed exactly once, none leaks, retired entries hold none, and no entry has two dials in flight |
| SshPoolSafety.ReusedIff | internal/podman/ssh_pool.go:163-206 | At either check a caller uses what the entry holds exactly when that was dialed with the parameters wanted and is not too old |
| SshPoolSafety.AnyoneMayEnter | internal/podman/ssh_pool.go:114-135 | A caller for a configured host may always come in, and shares the entry of whoever came first |
| SshPoolSafety.FirstCallerDials | internal/podman/ssh_pool.go:136-246 | The run of the first caller for a host: it waits for nobody, dials, and uses what it dialed, which is left in the pool |
| SshPoolSafety.DialIsShared | internal/podman/ssh_pool.go:171-246 | Whoever waited for the gate while another dialed for the same parameters uses what the other stored, without a dial of its own |
| SshPoolSafety.InvalidateSparesReplacement | internal/podman/ssh_pool.go:252-262 | Invalidating a client never closes another one |
| InstanceCache.HostCache.Get | internal/instance/instancecache.go:95-110 | What it serves reflects every change before the host's latest invalidation; what it joins does exactly if that sweep began after it; otherwise it starts the host's only shared sweep |
| InstanceCache.HostCache.Complete | internal/instance/instancecache.go:114-119 | A sweep begun before the latest invalidation stores nothing |
| InstanceCache.HostCache.BeginRefresh | internal/instance/instancecache.go:134-139 | A refresh begins, reflecting the host as it is, that no reader can join |
| InstanceCache.HostCache.Store | internal/instance/instancecache.go:143-149 | A refresh begun before the latest invalidation stores nothing |
| InstanceCache.HostCache.Unreachable | internal/instance/instancecache.go:154-161 | A failed refresh drops no entry and changes no observation |
| InstanceCache.HostCache.Drop | internal/instance/instancecache.go:165-170 | Read-your-writes: from here a hit reflects all changes so far, and no sweep already begun can be stored |
| InstanceCache.HitsAreFresh | internal/instance/instancecache.go:95-170 | Over all interleavings a hit reflects every change made before the host's last invalidation, and no host has two shared sweeps |
| InstanceCache.SweepLandsIff | internal/instance/instancecache.go:114-161 | Whatever happens while it runs, what a sweep finds is stored exactly when the host was not invalidated meanwhile; a failed refresh then marks what is stored unreachable, and nothing else changes |
| InstanceCache.FailureKeepsObservations | internal/instance/instancecache.go:154-161 | A failed sweep drops no entry and changes no observation |
| InstanceCache.JoinIsFreshIff | internal/instance/instancecache.go:101-105 | In every reachable state, all that a reader joining a sweep can be handed reflects the latest invalidation if and only if the sweep began after it, as it did if the generation has not moved |
| InstanceCache.JoinedSweepMayBeOlder | internal/instance/instancecache.go:101-105 | The run in which it did not: the older state is handed out, though not stored |
| KindRotation.Pool.Order | internal/jobs/runner.go:156-162 | The same kinds, least recently served first, ties in the given order |
| KindRotation.Pool.MarkServed | internal/jobs/runner.go:166-171 | Moves the kind behind every other |
| KindRotation.Pool.ClaimRotating | internal/jobs/runner.go:521-536 | Claims the oldest job of a least recently served kind that has one, nothing only when none has, and stops at a kind the store does not answer for |
| KindRotation.RotationIsFair | internal/jobs/runner.go:145-171 | A kind that keeps a job queued waits through at most one claim per other kind, whatever arrives |
| KindRotation.WaitIsBounded | internal/jobs/runner.go:521-536 | It waits only for kinds not served since, each at most once |
| KindRotation.FairnessIsTight | internal/jobs/runner.go:145-171 | That bound is reached |
| Runner.Registry.Register | internal/jobs/runner.go:576-580 | From here the handler's job can be canceled, and has not been |
| Runner.Registry.Cancel | internal/jobs/runner.go:283-293 | Answers yes exactly when the job's handler or a reconcile pass is running |
| Runner.Registry.Finish | internal/jobs/runner.go:584-600 | The job is to be recorded canceled exactly when a request was confirmed, and otherwise succeeded exactly when its handler returned without error |
| Runner.Registry.BeginReconcile | internal/jobs/runner.go:430-436 | A pass registers under a job that no handler has |
| Runner.Registry.EndReconcile | internal/jobs/runner.go:438-453 | A cancellation confirmed to a pass leaves no trace in the job |
| Runner.Registry.Reboot | internal/jobs/runner.go:298-309 | After a restart every row that said running is handed over if its kind can be reconciled and failed if not, all others are as they were, and the registry is empty |
| Runner.CancelAndPoolSafety | internal/jobs/runner.go:283-453 | Over all interleavings, restarts and reconcile passes included, a job is recorded canceled exactly when its row was withdrawn or a cancellation was confirmed and no restart came before it was recorded, and otherwise succeeded exactly when the last word on it was that it had; at most the reserved number of volume jobs are with workers |
| Runner.RecordedIsFinal | internal/jobs/runner.go:298-601 | What is recorded of a job stays so over every continuation |
| Runner.WithdrawalSticks | internal/store/sqlite.go:1108-1140 | A job canceled while it waits for a worker or a pass never runs again and stays canceled over every continuation |
| Runner.ConfirmedCancelForgotten | internal/jobs/runner.go:430-453 | The run in which a confirmed cancellation is forgotten and the job is recorded as succeeded |
| Runner.NextKeeps | internal/jobs/runner.go:298-601 | Every step keeps each job with one worker that claims its kind, registered exactly while a handler or a pass runs, and its cancellation in one place |
| Runner.EveryKindHasOnePool | internal/jobs/runner.go:501-510 | With the pool split, workers agree on a kind exactly if they are in one sub-pool, and some worker claims it |
| Runner.WorkersDifferIff | internal/jobs/runner.go:238-246 | Workers differ in what they claim exactly when there are reserved kinds and both sub-pools have a worker, and each kind has a worker that claims it |
| Tunnel.SshTunnel.Begin | internal/podman/ssh_tunnel.go:169-177 | A forward is let in exactly while the tunnel is neither closing nor closed, so that nobody has closed the client or is about to |
| Tunnel.SshTunnel.End | internal/podman/ssh_tunnel.go:179-187 | Told to finish exactly when closing and no forward is left; then none can begin |
| Tunnel.SshTunnel.Close | internal/podman/ssh_tunnel.go:222-242 | Afterwards the tunnel is closed, or a finisher or the armed timer is bound to close it |
| Tunnel.SshTunnel.Shutdown | internal/podman/ssh_tunnel.go:246-252 | Someone is on the way to finish, whatever is in flight, and nothing can begin |
| Tunnel.SshTunnel.Finish | internal/podman/ssh_tunnel.go:255-270 | Tells exactly the first caller to close the client, which nobody has; one that comes because the tunnel drained cuts no forward off |
| Tunnel.DrainSafety | internal/podman/ssh_tunnel.go:169-270 | Over all interleavings the client is closed at most once, with a forward active only by the timer or a dead connection, and a drained tunnel is closed or about to be |
| Tunnel.DrainCompletes | internal/podman/ssh_tunnel.go:179-270 | Over every run of a closing tunnel: someone is bound to finish; once any finisher has moved it is closed for good, and the client is closed exactly when the closer has moved, which stays possible |
| Tunnel.DrainHappens | internal/podman/ssh_tunnel.go:169-270 | The run in which the last forward to end closes the client |
| Tunnel.ClosingStays | internal/podman/ssh_tunnel.go:169-177 | Once closing, always closing, and no new forward ever begins |
| Evacuation.PlanIsUnique | internal/instance/evacuate.go:107-117 | Instances and destinations determine the plan |
| Evacuation.PlanOrder | internal/instance/evacuate.go:107-117 | An earlier move is of an earlier template, or of the same one and an earlier slug, by the first character that differs |
| Evacuation.EveryAssignment | internal/instance/evacuate.go:75-105 | Whatever assignment of a known host's instances to other known hosts a request lists, it is acceptable and means that assignment |
| Evacuation.LegacyAcceptableIff | internal/instance/evacuate.go:127-183 | The slug-keyed form is acceptable exactly when no two instances of a known host share a slug and it sends each of their slugs, and no other, to another known host |
| Evacuation.LegacyFormAgrees | internal/instance/evacuate.go:127-183 | The slug-keyed form and the spelled-out form are accepted alike and give the same plan |
| EvacuationPlanner.TemplatesBySlug | internal/instance/evacuate.go:142-149 | Fails exactly when a slug is used under two templates |
| EvacuationPlanner.ResolveMoves | internal/instance/evacuate.go:127-183 | The legacy form expands exactly when slugs are unambiguous and all, and only they, have destinations |
| EvacuationPlanner.CheckMoves | internal/instance/evacuate.go:75-105 | Accepts exactly the moves that assign every instance once to a known other host |
| EvacuationPlanner.ResolveEvacuation | internal/instance/evacuate.go:54-118 | Plans exactly the acceptable requests, with every instance once, ordered, to the requested host |
| TagListing.ListTags | internal/imgregistry/client.go:607-631 | The names on all linked pages in order, exactly when the pages end within the bound |
| TagListing.TagsInOrder | internal/imgregistry/client.go:607-631 | The names of the pages in the order they were read |
| TagListing.GroupTags | internal/imgregistry/client.go:459-517 | Each listed tag is in the group of its digest or dropped, as often as listed |
| TagListing.TagsOfIff | internal/imgregistry/client.go:459-517 | A tag is in the group of a digest exactly when its manifest has it or, without one, the digest-only request answered with it |
| TagListing.ListingOrder | internal/imgregistry/client.go:459-517 | Groups and dropped tags follow the listing's order |
| TagListing.ResolveCreated | internal/imgregistry/client.go:519-553 | Each image has its config's age, or zero without a readable config |
| TagListing.ResolveTags | internal/imgregistry/client.go:430-563 | The groups partition the resolved tags, digests are distinct, no group is empty, size and config are the first tag's, age is the config's, newest first |
| TagListing.VanishedIff | internal/imgregistry/client.go:488-503 | A tag is dropped exactly when neither request answered for it, and reported vanished exactly when besides a listing that was read lacks it |

## Left out

- Concurrency: the SSH pool, the cache, the tunnel and the runner are modelled as transition systems whose steps are the critical sections; memory ordering inside one and mutex fairness are not modelled.
- Migrate and ReconcileMigrate: secrets, paired instances, domains and the content of the ingress proxy do not appear; a refresh of the proxy is an effect that may fail.
- Boot converge, rename and adoption: not environment steps of the migration system, and not what follows a crashed backup or restore; a rename appears only as an apply that supersedes an instance.
- Migration with volume verification switched off: no claim is made.
- Tar: reading and writing bytes, gzip, truncated streams and I/O errors; the glob matcher and its validity check are parameters.
- Digests: a digest is modelled by the bytes hashed, that is, as injective.
- Backup and restore: what the pre-backup hook does, live mode (other than which scopes it accepts and what it then records), point-in-time restore, and, of a backup, the checks for disabled backups, unknown hosts and missing rows that come first.
- BackupJob.Service.Backup: volumes do not vanish between admission and export except as a failing export, so the scope's post-export backstop never fires and is not modelled.
- BackupDedupe.Controller.EnqueueBackup: job listings are complete, where the store returns at most a fixed number of rows.
- Restore.Service.Restore: the re-apply leaves volumes alone and creates none, so success speaks of the volumes as verified, before the pod writes again.
- DnsRegistry: forced template deletion, edits to a host's configuration, and deletes of rows by hand; container names are the effective ones, after backfilling from the body.
- DnsService.Service: Delete, CreateTemplate and DeleteTemplate are steps of the registry only; their code adds no check of its own beyond the reference count.
- InstanceCache: the time to live is an arbitrary verdict, observations are versions of the host, and the generation counter does not wrap.
- SshPool: hosts that are not configured, for which the lookup fails before it touches the pool, dial budgets, keys and the age of a connection (an arbitrary verdict) are not modelled; any caller may invalidate any client at any time, which covers the wedge watchdog.
- Runner: retention, the order of reconcile sweeps, and a boot whose own store writes fail.
- TarReexport.FilteredBackupVerifiesIff: the archive being filtered is one the same export wrote, in its order and spelling; how the engine walks a volume is a parameter.
- BackupJob.Service.Backup: does not promise that a failed run leaves no complete row nor that the pod is back unless starting failed, because neither holds when a reply is lost; PodRunsIff and CompleteRowIff say exactly when they do.
- KindRotation.RotationIsFair: claims are serialized, as the source's own bound assumes; two workers that order concurrently may serve a kind twice.
- TagListing: the concurrency of the fetches, parsing of Link headers and the text of errors.
- EvacuationPlanner: which of several errors is reported, and its text.
- HTTP handlers, authentication, the store, rendering, metrics, the audit log and image pruning.
