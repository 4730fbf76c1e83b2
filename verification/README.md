# Backup and restore of the admin node: a verified model

This project models the backup and restore engine of the admin node in Dafny and proves
what it is for: a backup captures states the node really went through, each service that
it keeps from writing at one moment, publishes it atomically, accepts its own manifest and
says honestly whether it left the node; a restore brings that state back on any node,
touches nothing else, and can be tried again; and all of it happens under one lock.

Every external command (docker, restic, git, systemctl, database tools, file system
calls) is a step that may fail at will (`Hosts.Host.Attempt`). Failed steps are
counted, so that a contract can speak about runs without failures, and a failed step
leaves arbitrary debris where it was writing. Between any two steps the services go on
writing to their own data (`Hosts.Host.Drift`), Gitea while its container runs, Harbor
while it is writable; every moment at which something is read from the node is kept in a
ghost history (`Hosts.Host.trail`). The file system is a tree value, the
backup root a map from names to trees. Programs whose inside does not matter (JSON,
SHA-256, dump and restore, `%q`) are function values with the few laws that are used:
`Manifests.Lossless`, `Hosts.Inverse`, `RootToken.Faithful`.

| file | content |
|---|---|
| `Text`, `Paths`, `Trees`, `Edits` | strings in byte order, `path/filepath`, directory trees, replacing several subtrees |
| `StackScope` | stack names, binary search, discovery, the start order |
| `Listing`, `Manifests` | the canonical file list, the manifest and its verification |
| `Capture`, `Delivery` | the artifacts of a backup, rewriting the manifest of a published one |
| `ImageRewrite`, `ImageTags` | image references in stack definitions |
| `Hosts`, `GiteaBackup`, `Phases`, `CaptureRun`, `Publication`, `BackupRun` | one backup run, bottom up |
| `Retention` | listing and rotation |
| `RepoVariables`, `Repositories`, `Integrity` | Restic settings, delivery, integrity checks |
| `RestorePlan`, `RestoreSteps`, `RestoreRun` | one restore |
| `RoundTrip` | backup then restore |
| `Protocol`, `GiteaRestore` | lock and mode among many processes; the Gitea-only restore |
| `RootToken`, `Sizes` | two small text functions |

## Main results

- **Consistent cut** (`GiteaBackup.BackupGitea`, `Phases.BackupHarbor`,
  `CaptureRun.CaptureServices`): every database dump, every snapshot and every copy of a
  quiet directory is of a state the node was in between the begin and the end of the run;
  Gitea's dump and files are of one moment, with Gitea down, Harbor's of one moment, with
  Harbor read-only. Both conditions can be told from outside: a Gitea that ran was
  restarted once, Harbor's credentials were there or it was read-only already. When
  Gitea is up between dump and copy no such moment need exist, exactly then
  (`GiteaBackup.WholeExactly`).
- **Round trip with a frame** (`RoundTrip.NodeRebuilt`): for any source and target
  node and whatever failed meanwhile, if a backup and a restore of it both report success,
  the active stacks' definitions, databases and OpenBao store on the target are those of
  states the source went through, and everything outside the active stacks is untouched.
  So are Gitea's files and the captured Harbor sub-paths, unless they were copied one by
  one while their service went on writing, and of one state with the database if it could
  not write. Exact conditions: Gitea's and Harbor's databases come back if and only if the
  target has their environment file, and a Harbor sub-path comes back if and only if it
  holds no directory of its own name. Definitions of a backup with images come back with
  the archived tags that its manifest lists.
- **Retry** (`RestoreRun.RetryAfterStop`): wherever a restore stopped, a later complete
  one ends exactly as one uninterrupted run.
- **Every ending of a backup** (`BackupRun.Run`, contract `RunContract`): what others can
  see after each failure pattern, what is cleaned up, what the failure record says.
- **Success without faults** (`BackupRun.Run` with `CanBackUp`, `RestoreRun.Run` with
  `CanRestore`): if what a run needs is there and no external step fails, a backup,
  with images or without, ends `Done`, unless it captured a file whose name is not valid
  UTF-8, and a restore succeeds. The conditions can be looked up before the call, and a restore
  succeeds only if its condition held.
- **Own backups are restorable** (`RoundTrip.DoneIsRestorable` with `RestoreRun.Run`):
  the entry a successful backup leaves can be restored on any node,
  failing steps aside, if and only if no file is in the way there, Gitea's stack had one
  of the two known layouts, Harbor gets a registry password from source or target, and
  Harbor's database takes the statement that resets its administrator.
- **Timers** (`RestoreRun.Run`, `GiteaRestore.RunGiteaProcessRestore`, contract
  `TimersHandled`): whatever fails, one list of timers that were active or enabled is
  stopped, and after success that same list is started and no other; if anything was
  restored and the command failed, these timers are off.
- **Self-acceptance** (`Publication.OwnManifestAccepted`): without a failing step the
  assembled manifest passes its own verification if and only if every captured file has
  a name that is valid UTF-8.
- **Image references** (`Phases.RunRewritableExactly`): the loop of replacements puts every
  image's own tag in its place, at one stroke, if and only if no source occurs in the
  wrong other source or tag, a condition on the list of images alone.
- **Exclusion** (`Protocol.Safety`, `Protocol.ExclusionExactly`, `Protocol.NormalAfterSuccess`):
  for any number of processes and every interleaving, including deaths; and exactly when
  a backup captures in another mode than `normal`, and which commands clear
  `restore_failed` (`Protocol.CapturedModeExactly`, `Protocol.FailureClearedExactly`).

## Where code and documentation differ

The model follows the code. `docs/backup.md` lines 11-17 describe a Gitea snapshot taken
without stopping Gitea, and SHA-256 sums of the copies; the code stops Gitea around dump
and copy (`internal/backup/run.go` lines 541-587) and new manifests carry sizes only
(`internal/backup/manifest.go` lines 99-141). `docs/restore-runbook.md` line 3 says that
stacks stay stopped after a failure; the code can fail after it has started them
(`internal/restore/restore.go` lines 207-232). Lines 75 of that file and 164 of
`docs/backup.md` name the mode `locked` for the Gitea restore; the code sets `restore`.

Places where a natural claim is false of the code, each with its exact condition: a
binary search on an unsorted list can miss (`StackScope.MembershipExactly`, harmless in
`Verify` by `Manifests.AcceptedGiteaJudgedRightly`); image references that begin like
another one are rewritten wrongly (`Phases.RunRewritableExactly`); a failing container
listing lets a finished backup hold a torn Gitea (`GiteaBackup.WholeExactly`); a file name
that is not valid UTF-8 makes a run reject its own backup
(`Publication.OwnManifestAccepted`); a run can report remote delivery without a remote
repository (`Repositories.RemoteClaimExactly`); a backup can capture while the mode is no
longer `normal` (`Protocol.CapturedModeExactly`); a restore can turn `restore_failed` into
`normal` (`Protocol.FailureClearedExactly`); resuming the timers also starts one that was
enabled but not active (`RestoreRun.TimersBackExactly`); a restore refused the lock writes
the mode without it (`Protocol.RefusedRestoreMarks`, the only such write by
`Protocol.Safety`); an empty lock path excludes nobody (`Protocol.ExclusionExactly`); a
directory whose mode cannot be restricted is left behind (outcome `Leaked` of
`BackupRun.Run`).

## Model

| member | source | states |
|---|---|---|
| StackScope.Validate | internal/stackscope/stackscope.go:44-54 | comparing neighbours accepts exactly the lists of valid names in strictly increasing order |
| StackScope.ContainsIsMembership | internal/stackscope/stackscope.go:56-59 | on a strictly sorted list the binary search is exact membership |
| StackScope.MembershipExactly | internal/stackscope/stackscope.go:56-59 | on a list without repetition the search is membership for every name if and only if the list is sorted |
| StackScope.ContainsCanMiss | internal/stackscope/stackscope.go:56-59 | the witness: a two-element list on which the search misses a name that is there |
| StackScope.Discover | internal/stackscope/stackscope.go:15-42 | the result is canonical and names exactly the rendered, valid, enabled stacks |
| StackOrder.OrderedActiveStacks | internal/restore/restore.go:609-625 | a permutation of the active stacks, priority stacks first in their fixed order, unknown ones in input order |
| StackOrder.OrderIsUnique | internal/restore/restore.go:609-625 | these properties determine the order, so it depends on the active stacks alone |
| Listing.Walk | internal/backup/manifest.go:99-130 | the walk succeeds exactly on trees of files and directories and lists every file not named manifest.json once |
| Listing.SortFiles | internal/backup/manifest.go:136-141 | sorting by path turns a duplicate-free list into the list of the tree |
| Listing.BuildManifestFiles | internal/backup/manifest.go:99-141 | the result is the sorted, duplicate-free list of the tree, and the call fails exactly on other entry kinds |
| Listing.ListsEqualExactly | internal/backup/manifest.go:205-220 | two lists are equal if and only if the trees have the same files with the same sizes (and hashes before version 4) |
| Manifests.ValidateOfflineRecovery | internal/backup/manifest.go:224-250 | the loop with its two seen-sets decides the declared rule for offline archives |
| Manifests.ValidateBoundaries | internal/backup/manifest.go:162-194 | the loop decides the rule: at most one boundary, Gitea's, in time order, exactly when declared |
| Manifests.ValidateArtifacts | internal/backup/manifest.go:252-283 | the loop decides: clean distinct paths, statuses consistent with requirement, presence and completeness |
| Manifests.ValidateActiveStacks | internal/backup/manifest.go:285-300 | active stacks need a canonical list and a compose file each |
| Manifests.Verify | internal/backup/manifest.go:143-222 | a directory is accepted exactly when its manifest reads and every declared condition holds |
| Manifests.AcceptedGiteaJudgedRightly | internal/backup/manifest.go:181-199 | in an accepted manifest the Gitea test was right although it ran before the sortedness check |
| Manifests.AcceptedAfterChange | internal/backup/manifest.go:200-221 | after any change that keeps the manifest, acceptance survives exactly if all listed views and required entries do |
| Capture.ExpectedArtifacts | internal/backup/run.go:361-403 | the artifact list, entry by entry, for every directory and stack list |
| Capture.ExpectedArtifactsGood | internal/backup/run.go:352-359 | if every required path is there, the list passes its own validation: clean, distinct, present |
| Delivery.AssembledAccepted | internal/backup/run.go:243-275 | an assembled manifest, once written into the directory it describes, is accepted |
| Delivery.DeliveryRecorded | internal/backup/run.go:342-350 | appending produced evidence keeps the backup accepted and makes it delivered |
| Delivery.FailureRecorded | internal/backup/run.go:285-288 | recording a failed delivery makes verification reject the published backup |
| ImageRewrite.RewriteText | internal/backup/run.go:444-447 | the loop over the archives is the composition of the replacements |
| ImageTags.RewritableExactly | internal/backup/run.go:444-447 | for tags of one prefix and a number, rewriting every delimited text is one simultaneous substitution if and only if the list is disentangled, a condition on which sources occur in which sources and tags |
| ImageTags.SameLengthInOrder | internal/backup/run.go:204-227 | for tags of equal length that means: no source occurs in a later source or in an earlier tag |
| ImageRewrite.UntangledIsSimultaneous | internal/backup/run.go:444-447 | it is so when no source occurs in a later source or in a tag |
| ImageRewrite.OrderDoesNotMatter | internal/backup/run.go:444-447 | then any order of the archives gives the same text |
| ImageRewrite.Reversible | internal/backup/run.go:444-447 | and rewriting tags back to sources restores the text |
| ImageRewrite.PrefixIsMisread | internal/backup/run.go:444-447 | the witness: a source that begins another one is replaced inside it, sorted order does not help |
| Hosts.Host.CopyTree | internal/backup/run.go:663-718 | success copies exactly the tree, modes kept or masked to the owner's, and only trees of files and directories succeed |
| Hosts.Host.Drift | internal/backup/run.go:135-191 | what services write between two steps: nothing but their own data, Gitea's only while it runs, Harbor's only while it is writable |
| Hosts.Host.CopySnapshot | internal/backup/run.go:760-792 | a snapshot copy is exact; a source that is no subvolume, or cannot be asked, falls back to the file copy without an error |
| Hosts.Host.DumpPostgres | internal/backup/run.go:486-512 | success leaves the dump of the database as found; failure may leave debris in its one entry |
| Hosts.Host.ContainerExists | internal/backup/run.go:612-624 | a failing listing reads as absent, so presence is always true and absence only without a fault |
| Hosts.Host.SetMode | internal/mode/mode.go:34-64 | the mode changes to the new value or not at all |
| GiteaBackup.SelectSource | internal/backup/run.go:519-531 | the stack directory, or the data directory where that is allowed, or an error |
| GiteaBackup.MethodName | internal/backup/run.go:560-578 | only the four method names the verification knows are produced |
| GiteaBackup.DumpAndCopy | internal/backup/run.go:555-575 | while Gitea is stopped dump and copy show the one state the node is in, whatever other services write; else the dump, and the files if they come from a snapshot, each show a state passed through |
| GiteaBackup.Quiesced | internal/backup/run.go:548-579 | between stop and restart: a state the node was in with Gitea down is captured, boundary times in order |
| GiteaBackup.RestartGitea | internal/backup/run.go:591-610 | exactly one start command; success only with Gitea running |
| GiteaBackup.BackupGitea | internal/backup/run.go:514-589 | database and files of one moment the node went through with Gitea down, if the listing was right, else the dump of one and a snapshot of another moment; one restart on every path if it was seen running, running as before on success |
| GiteaBackup.WholeExactly | internal/backup/run.go:538-575 | a capture shows one of the states it was made from, whatever Gitea does in between, if and only if Gitea is down in between |
| Phases.CopyParts | internal/backup/run.go:832-847 | every Harbor sub-path is captured, in whatever order the map yields them; a live one is a directory of unknown content |
| Phases.HarborFiles | internal/backup/run.go:817-851 | success leaves dump and files, registry included; in read-only mode both show one moment the node went through, else the dump and a snapshot one each |
| Phases.SetHarborReadOnly | internal/backup/run.go:885-905 | success sets the value; failure may have set it |
| Phases.BackupHarbor | internal/backup/run.go:798-852 | because of the read-only switch dump and files show one moment; without it the dump shows one and a snapshot another; Harbor is left read-only only after a failed step; succeeds if nothing fails and its parts are files and directories |
| Phases.BackupKeycloak | internal/backup/run.go:135-139 | the database as it was at one moment of the run |
| Phases.BackupOpenBao | internal/backup/run.go:157-191 | success leaves a snapshot, not empty, of the store as it was at one moment, and no scratch file; otherwise the removal is registered once the file may exist |
| Phases.TagsDiffer | internal/backup/run.go:210 | temporary tags of one run are pairwise different, also past 999 images |
| Phases.ArchivesDistinct | internal/backup/run.go:204-227 | recorded sources and tags are distinct |
| Phases.DetectImages | internal/backup/images.go:23-54 | the images detected are sorted and without repetition, and without faults exactly those named for the active stacks |
| Phases.ArchiveImages | internal/backup/run.go:204-234 | every image is recorded under its tag, and the tags left are exactly those registered for removal; succeeds if nothing fails |
| Phases.RemoveTags | internal/backup/run.go:215-219 | after the deferred removals no temporary tag is left unless a removal failed |
| Phases.CopyDefinitions | internal/backup/run.go:405-417 | every active definition is kept verbatim, modes included; succeeds if nothing fails and each is a directory that can be copied |
| Phases.RewriteTree | internal/backup/run.go:428-456 | every file below is rewritten and nothing else changes; succeeds on files and directories if nothing fails |
| Phases.RewriteDefinitions | internal/backup/run.go:240-244 | the kept definitions show the archived tags; every delimited reference its own one, if the archives rewrite simultaneously |
| Phases.RunRewritableExactly | internal/backup/run.go:204-244 | for the archives a run makes that is so for all definitions if and only if they are disentangled; up to 999 images that means in order |
| CaptureRun.BundleStep | internal/backup/run.go:114-133 | with images: the revision of a repository without tracked changes, not blank, and the bundle, or an error; succeeds if there is such a revision and nothing fails |
| CaptureRun.CaptureServices | internal/backup/run.go:114-191 | all service captures together, none disturbing another, each of a state passed through in this run; whether Gitea and Harbor could not write is told by the restarts and by credentials or mode; without faults they succeed if the active services and the repository are ready |
| CaptureRun.CaptureStacks | internal/backup/run.go:198-245 | images and definitions together; without faults the images are exactly those named for the active stacks, and it succeeds if there are some, where asked for, and the definitions can be copied |
| Publication.RequiredPresent | internal/backup/run.go:352-359 | after successful captures every required artifact path exists |
| Publication.SensibleArtifacts | internal/backup/run.go:246-249 | after a capture without a failing step the check of the artifacts before writing cannot fail |
| Publication.PlainListable | internal/backup/manifest.go:99-130 | a directory of files and directories only can be listed |
| Publication.OwnManifestAccepted | internal/backup/run.go:247-279 | self-acceptance: without a failing step the run's own verification accepts, also as an offline recovery point, if and only if all captured files have names in valid UTF-8 |
| Publication.OwnIsTextExactly | internal/backup/manifest.go:60-97 | apart from these names everything a run writes into its manifest is text |
| Delivery.AcceptedIsLegible | internal/backup/manifest.go:205-220 | no directory with such a file name is ever accepted |
| BackupRun.Publish | internal/backup/run.go:247-283 | published means renamed, accepted and fresh; failure leaves the list unchanged; after a sound capture only a failing step or an illegible file name stops it |
| BackupRun.RecordRemoteDelivery | internal/backup/run.go:342-350 | only the one entry changes, to the old directory with the extended manifest, or to debris on failure |
| BackupRun.DeliverAndRecord | internal/backup/run.go:285-293 | delivered everywhere and recorded, or rejected by verification if the failure could be noted; snapshots of other backups go only from the repositories delivered to |
| BackupRun.Settle | internal/backup/run.go:285-328 | delivery, rotation, markers; success means delivered, still present and marked, and follows for the newest of its kind if nothing fails |
| BackupRun.Conclude | internal/backup/run.go:294-328 | rotation, markers and the last look |
| BackupRun.NewIsNewest | internal/backup/list.go:71-91 | a backup assembled after the time of all others of its kind is listed as the newest |
| BackupRun.DeliveredIsPoint | internal/backup/run.go:271-293 | a delivered backup with images is a verified, delivered offline recovery point, of the kind its rotation counts |
| BackupRun.CaptureAll | internal/backup/run.go:114-245 | the filled directory shows states the node went through since the call, Gitea's of one moment exactly if its restart is counted, and is ready to be accepted |
| BackupRun.Finish | internal/backup/run.go:247-330 | every ending after capture, told by what others see |
| BackupRun.Stages | internal/backup/run.go:114-330 | every ending, with the removals registered on the way and the captured states of a published one |
| BackupRun.RecordFailure | internal/backup/run.go:332-340 | the failure record describes what is left of the new entry; other records stay |
| BackupRun.FailureListExact | internal/backup/run.go:332-340 | the failure record, read back: the run, incomplete, each required path produced exactly if it was there, else failed |
| BackupRun.RecordedRun | internal/backup/run.go:103-112 | removals run first, then the failure record, while the unpublished directory is still there |
| BackupRun.WithPartial | internal/backup/run.go:87-112 | the unpublished directory is gone on every way out unless its removal failed; the failure record describes exactly what was removed, or the published entry |
| BackupRun.SomeRunCan | internal/backup/run.go:33-86 | the condition under which a run succeeds can be met, with images and without, with a calendar that reads its own stamps back |
| BackupRun.Stamped | internal/backup/run.go:57-86 | the contract of a run, from the naming of the backup on, with the one leak |
| BackupRun.Locked | internal/backup/run.go:42-86 | the contract of a run, with its refusals |
| BackupRun.Run | internal/backup/run.go:33-330 | the contract of a run under every failure pattern; nothing at all unless the mode is normal; success if the run can succeed, no step fails and the names are legible; the lock is given back |
| BackupRun.NewestBackupStays | internal/backup/run.go:294-303 | a delivered backup newer than all of its kind survives the rotation that follows, complete or not |
| BackupRun.RemoteCopyExists | internal/backup/run.go:49-55 | success means a snapshot in a remote repository, except for the one mixed configuration |
| Retention.OnlyPublishedListed | internal/backup/list.go:13-15 | unpublished directories and failure records never look like backups |
| Retention.List | internal/backup/list.go:32-58 | all directories with a valid id, inspected, newest first, ties in any order |
| Retention.IsOfflinePoint | internal/backup/run.go:954-960 | decides: verified, delivered, scheduled offline recovery point |
| Retention.FilterInPlace | internal/backup/run.go:928-940 | filtering into the same array yields exactly the counted backups in order |
| Retention.RotateLocalFiltered | internal/backup/run.go:923-952 | deletes exactly the counted backups beyond the newest `keep`, none newer than a kept one; the rest untouched even if a removal fails |
| Retention.SurvivorsCount | internal/backup/run.go:947-951 | however far the removals got, at least min(keep, count) counted backups still count |
| Retention.RotationSettles | internal/backup/run.go:942-944 | running it again deletes nothing |
| Retention.NewestSurvives | internal/backup/run.go:945-951 | a strictly newest counted backup is never deleted |
| Retention.KindsAreDisjoint | internal/backup/run.go:930-938 | rotation of one kind never deletes a backup of the other |
| RepoVariables.SplitRepoVar | internal/backup/restic.go:282-301 | the longest variable name that splits the key, whatever the unstable sort does |
| RepoVariables.LongestIsUnique | internal/backup/restic.go:293-299 | the result does not depend on the order of equal lengths |
| RepoVariables.InvertibleExactly | internal/backup/restic.go:282-301 | splitting undoes joining for all suffixes if and only if no name plus underscore begins another |
| RepoVariables.VariablesInvertible | internal/backup/restic.go:283-292 | this holds for the 34 names of the program |
| Repositories.RepoValues | internal/backup/restic.go:206-215 | the table has exactly the given variables in every iteration order |
| Repositories.HasRemoteRepository | internal/backup/restic.go:222-230 | true exactly if a named repository or the legacy one is remote |
| Repositories.RemoteClaimExactly | internal/backup/restic.go:84-96 | claiming remote delivery means a remote repository was visited, except in one mixed configuration, exactly |
| Repositories.NewSpec | internal/backup/restic.go:358-387 | a current directory is sent only if it verifies under its own id |
| Repositories.Forget | internal/backup/restic.go:546-578 | forgetting takes any snapshots of the one repository but those of the backup just delivered |
| Repositories.Deliver | internal/backup/restic.go:303-356 | success means a snapshot, with address, password and transport settled; others of the repository may be forgotten, no other repository is touched; without a fault the settings suffice |
| Repositories.DeliverToAll | internal/backup/restic.go:84-90 | success means a snapshot in every named repository, also where two names share an address; new ones appear and old ones go only there |
| Repositories.RunRestic | internal/backup/restic.go:55-100 | the same for the whole configuration, named or legacy; usable settings and a current backup suffice |
| Repositories.LatestCompatibleParent | internal/backup/restic.go:393-421 | the maximum by time and id of a valid inventory, if any time lies after the zero instant; else none |
| Repositories.ParentIgnoresOrder | internal/backup/restic.go:409-420 | the maximum is the same for every order of the inventory |
| Integrity.Maintenance.CheckRestic | internal/backup/restic.go:102-170 | what was done is a beginning of the complete run; the stored quarter moves on only after all of it, and it does if no step fails |
| Integrity.Maintenance.RepeatChecks | internal/backup/restic.go:616-670 | any sequence of runs forms a history with the stored quarter in step |
| Integrity.PartCountsSuccesses | internal/backup/restic.go:635-640 | the stored quarter is one plus the successes modulo four |
| Integrity.PruneAfterAllChecks | internal/backup/restic.go:122-160 | no prune before every repository was checked in that run |
| Integrity.FourSuccessesCover | internal/backup/restic.go:102-170 | four consecutive successes, with any failures between them, read every quarter of every repository |
| RestorePlan.SnapshotArtifactSource | internal/restore/restore.go:1230-1264 | the directory itself, else its only complete wrapper, else an error |
| RestorePlan.PlanApart | internal/restore/restore.go:108-180 | the places a restore replaces never lie on or below each other |
| RestorePlan.RetryConverges | internal/restore/restore.go:1156-1188 | from anywhere an attempt may stop, a complete run gives the result of one uninterrupted run |
| RestorePlan.WithinOn | internal/restore/restore.go:41-243 | the same after any number of stopped attempts |
| RestoreSteps.ReplaceDirContents | internal/restore/restore.go:1156-1188 | success puts exactly the source there; failure leaves debris there, nothing, or only missing parents made, and changes nothing elsewhere |
| RestoreSteps.RestoreActiveStackDefinitions | internal/restore/restore.go:558-567 | the definitions in order, as planned |
| RestoreSteps.RestoreDefinitions | internal/restore/restore.go:108-123 | the same, or the whole directory for older manifests |
| RestoreSteps.RestoreGiteaFiles | internal/restore/restore.go:149-174 | Gitea's planned directory, from either layout |
| RestoreSteps.RestoreHarborData | internal/restore/restore.go:1190-1228 | the planned sub-paths, then a non-empty password file |
| RestoreSteps.RestoreDirectories | internal/restore/restore.go:108-180 | all planned directories, or a state within the plan |
| RestoreSteps.WaitReady | internal/restore/restore.go:726-741 | ready exactly on three good answers in a row, within sixty questions |
| RestoreSteps.RecreateDatabase | internal/restore/restore.go:742-750 | only the one database is touched |
| RestoreSteps.RestorePostgres | internal/restore/restore.go:722-769 | success leaves the database as the dump reads, after the optional statement |
| RestoreSteps.RestoreDatabases | internal/restore/restore.go:182-199 | exactly the wanted databases are loaded, in order |
| RestoreSteps.RestoreOpenBao | internal/restore/restore.go:888-937 | success leaves the store as the snapshot reads; no scratch file stays |
| RestoreRun.SuspendSystemdTimers | internal/restore/restore.go:675-695 | the timers found active or enabled, asked separately, are remembered and stopped by one command; one that fails has stopped no others |
| RestoreRun.TimersBackExactly | internal/restore/restore.go:675-707 | when the start after a restore worked, no active timer is lost, and the active timers are back exactly if none of the suspended, without failing questions: none of the listed, was enabled without being active |
| RestoreRun.ResumeTimers | internal/restore/restore.go:696-707 | one start command for exactly those; one that fails has started no others |
| RestoreRun.StopRestoreStacks | internal/restore/restore.go:569-584 | stops in the start order read backwards, skipping stacks without a compose file |
| RestoreRun.StartRestoreStacks | internal/restore/restore.go:586-600 | starts in the start order |
| RestoreRun.StopReversesStart | internal/restore/restore.go:569-600 | both follow one and the same order |
| RestoreRun.Resolve | internal/restore/restore.go:469-496 | the named listed backup, or one none of the listed is newer than |
| RestoreRun.CheckOut | internal/restore/restore.go:245-263 | a declared bundle must be there with its revision |
| RestoreRun.Steps | internal/restore/restore.go:81-232 | success is exactly the goal state of the plan, and needs everything `Restorable` names; failure stays within the plan |
| RestoreRun.RestoreChosen | internal/restore/restore.go:64-232 | only a listed, verified backup is restored |
| RestoreRun.Run | internal/restore/restore.go:41-243 | mode, timers and node in every ending and under every fault: normal with the one list of timers that was stopped started again, or restore_failed with none started, and off if anything was restored; success if the chosen backup and the node fit and no step fails, and only if they fit |
| RestoreRun.RetryAfterStop | internal/restore/restore.go:41-243 | stopped, then completed, equals completed at once |
| RoundTrip.DefinitionBack | internal/restore/restore.go:558-567 | every active definition is back as captured, with images as rewritten |
| RoundTrip.GiteaStackBack | internal/restore/restore.go:149-163 | Gitea's files are back with the captured contents, from the stack directory in either of its layouts |
| RoundTrip.GiteaDataBack | internal/restore/restore.go:164-174 | and from the older data layout |
| RoundTrip.HarborSourceExactly | internal/restore/restore.go:1193-1203 | a sub-path is restored in full if and only if it does not hold a directory of its own name |
| RoundTrip.HarborPartBack | internal/restore/restore.go:1190-1210 | the same on the restored node |
| RoundTrip.PasswordFromBackup | internal/restore/restore.go:1190-1228 | the registry password on the restored node is that of the backup's `core` directory if it has one, else the target's |
| RoundTrip.StackFoundExactly | internal/restore/restore.go:188-199 | Gitea's and Harbor's databases are loaded if and only if the target has the environment file |
| RoundTrip.LoadsAsExpected | internal/restore/restore.go:182-205 | the loads of a backup, spelled out by what the target has |
| RoundTrip.OutsideIsAside | internal/restore/restore.go:108-180 | what no active stack owns is no place of the plan |
| RoundTrip.CaptureThenRestore | internal/restore/restore.go:96-209 | round trip with a frame: a directory showing captured states, restored to completion, brings exactly these back, part by part |
| RoundTrip.NodeRebuilt | internal/restore/restore.go:41-243 | round trip with a frame, from one command's success to the other's, whatever failed meanwhile: what comes back are states the source went through during the backup, and which parts share one is told by what can be observed |
| RoundTrip.GiteaThereExactly | internal/restore/restore.go:1230-1264 | a captured Gitea stack has a usable source if and only if the original directory has one |
| RoundTrip.PasswordExactly | internal/restore/restore.go:1211-1228 | the registry password on the restored node is the source's if its `core` directory was captured, else the target's |
| RoundTrip.RestorableExactly | internal/restore/restore.go:81-232 | for a directory showing captured states, what a restore needs and what suffices for it is that source and target fit |
| RoundTrip.DoneIsRestorable | internal/restore/restore.go:64-232 | the same for the entry any successful backup run leaves: fitting is necessary and, failing steps aside, sufficient |
| Protocol.Safety | internal/operation/lock.go:15-75 | one holder; all work by the holder; the converge lock inside the operation lock, so never contended; one mode write outside the lock |
| Protocol.NormalAfterSuccess | internal/restore/restore.go:226-240 | whoever writes normal got the lock at some step, has held it at every moment since, and succeeded with its own work in between |
| Protocol.ModeChangesAreWrites | internal/mode/mode.go:34-64 | the mode changes only by the operator or a command's own write |
| Protocol.ExclusionExactly | internal/operation/lock.go:53-56 | mutual exclusion holds if and only if the lock path is not empty |
| Protocol.CapturedModeExactly | internal/backup/run.go:34-42 | over every run: a backup captures in another mode than normal if and only if the mode was written since the backup began, last to something else |
| Protocol.CalmCapturesInNormal | internal/backup/run.go:34-42 | with backups and convergences alone and the operator's hands off the mode, every capture is in normal |
| Protocol.CaptureAfterModeChange | internal/backup/run.go:34-42 | the witness for a capture in another mode |
| Protocol.FailureClearedExactly | cmd/admin-node/main.go:310-412 | over every run: a command takes the mode from restore_failed to normal if and only if it is a holder done with its work, a Gitea restore, or a full restore during which somebody marked a failure |
| Protocol.GiteaRestoreClearsFailure | cmd/admin-node/main.go:310-412 | the witness for the Gitea restore |
| Protocol.RefusedRestoreMarks | internal/restore/restore.go:46-50 | a restore refused the lock marks the mode while another command holds it |
| GiteaRestore.Entered | cmd/admin-node/main.go:343-427 | after the mode was set: normal and the one list of suspended timers started again, or the error before the deferred write with none started |
| GiteaRestore.RunGiteaProcessRestore | cmd/admin-node/main.go:310-431 | restore_failed after every error once entered, also a failed convergence; only a timer failure leaves normal; the timers stopped are listed ones that were active or enabled, and the list started is that same one |
| RootToken.UpsertChild | internal/citest/citest.go:149-164 | below a header: overwrite the first token line or insert one at the end of the section |
| RootToken.UpsertLines | internal/citest/citest.go:145-170 | the scan over the lines is the declared update |
| RootToken.UpsertRootToken | internal/citest/citest.go:142-171 | the same on texts |
| RootToken.LensLaws | internal/citest/citest.go:142-171 | reading back gives the token; a second write wins and leaves no trace of the first |
| RootToken.ReadBackExactly | internal/citest/citest.go:142-171 | reading back works if and only if the section name has no line break |
| RootToken.OtherLinesKept | internal/citest/citest.go:142-171 | every other line keeps content and order |
| RootToken.OtherSectionReads | internal/citest/citest.go:142-171 | setting one top-level section never changes what another reads |
| RootToken.KeepsOthersExactly | internal/citest/citest.go:151-156 | and only top-level sections are so |
| RootToken.UpdatePlainConfig | internal/citest/citest.go:130-140 | both sections hold the token afterwards, every other one what it held |
| Sizes.FindUnit | internal/backup/list.go:141-152 | for every size up to the int64 maximum: unit on the list, divisor its power of 1024 without overflow, 1 <= number shown < 1024 |

## Left out

- Symbolic links: trees hold files, directories and special files. A link back to an ancestor makes the copy recurse without end.
- Ownership and mode fixing after a restore (`fixGiteaDataPermissions` and the like) and the modes of directories made only as parents: steps that may fail, without effect on the tree.
- All services writing after a restore has started them; this includes the Keycloak administrator and Harbor's write mode set at the end.
- Hosts.Host.Drift: in read-only mode Harbor writes nothing that is captured, and a stopped Gitea writes nothing; the stack definitions and environment files change under the operation lock only. A single read (a dump, a snapshot, a copy of a stopped service) is one moment. A service that writes keeps the shape of its data (`Hosts.SameShape`): its directories stay directories, free of special files where they were, and its database stays there.
- Hosts.Host.CopySnapshot: whether the data lie on Btrfs subvolumes is one fact for Gitea and Harbor.
- Hosts.Host.Attempt: a read that fails inside `Verify` is not a separate outcome; reading the tree itself does not fail.
- BackupRun.Run: `Hosts.GoodLayout` is assumed, that is, the configured Gitea stack directory lies neither above nor below `stacks`, `env`, `data/gitea` and `data/harbor`; the program does not check this. RestoreRun.Run and GiteaRestore.RunGiteaProcessRestore assume it too.
- GiteaBackup.RestartGitea: the wait for a healthy container is one step, without its clock.
- Repositories.Forget: the retention arguments are taken to keep the newest snapshot, the one just delivered; which others they keep is left open.
- Repositories.Deliver: repository commands are single steps; what a repository stores is only which backups have a snapshot in it. Fetching a backup back from a repository (`RestoreFromRestic`) is not modelled.
- Repositories.RepoValues: reading the environment file and unquoting its values are left out; names and values are given as a map. Identifiers are bytes, so letters outside ASCII are not raised to upper case.
- RestoreSteps.LoadArchives: the images a restore loads into docker are not part of the node; loading and comparing them are steps that may fail.
- RestoreSteps.RestorePostgres: `docker compose`, the user and the owner of a database are left out; a database is its contents.
- Protocol.Safety: a process that dies gives its locks back in one step; closing the lock file and dropping the lock are one action.
- Protocol.Safety: other commands of the program take neither lock and are left out.
- BackupRun.Run: free space, revision and cleanness of the repository are facts that hold during the run (`Hosts.Offline`); with images the question for free space is always asked. A clock reading from the year 10000 on counts as a fault, as one that goes back does.
- Phases.DetectImages: where `docker compose config` fails the compose file is read line by line; what that gives is left open.
- Phases.RunRewritableExactly: images that carry the prefix of this very run's tags are left out, as the run has only just made up that prefix.
- Publication.OwnManifestAccepted: host name, revision, image names and image identifiers count only if they are text, as the commands that answer with them do; the names of files are arbitrary bytes.
- JSON, regular expressions, SHA-256 and `%q` beyond the laws named above; printing, HTTP validation, command-line parsing, waiting times.
- Status freshness, the recovery-kit inventory, configuration layering, secret handling, message redaction: single look-ups or text output.
