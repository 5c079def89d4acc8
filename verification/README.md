# Verification of the release and observation controls

A Dafny 4.11 model of the parts of this repository that contain real algorithms or protocols, with
proofs about every input, every run and every interleaving. `dafny verify dfyconfig.toml` checks the
project.

| files | models |
|---|---|
| `ObservationDocuments`, `ObservationGate`, `ObservationHistory`, `ObservationWorkload`, `ObservationProgram`, `ObservationMeaning`, `ObservationSample` | `tools/observation_window_gate.py`: policy, start, checkpoint and closeout documents, the four windows in sequence, a reference definition of acceptance without steps, and a smallest accepted program |
| `TreeManifest`, `TreeOrder`, `RestoreEnvelope`, `BackupRestore`, `ReceiptPublication` | `tools/release_backup_restore.py`: the tree walk, the restore check against an arbitrary subprocess, the receipts, and their publication under concurrency and power loss |
| `Deployment`, `DeploymentRuns`, `DeploymentController`, `DeploymentSafety`, `DeploymentOrder`, `DeploymentLimits`, `DeploymentReceipts` | `tools/pre_soak_deploy.py`: a remote host, commands the outside world answers as it likes, the controller's methods proved to follow the plan of each action, what every run guarantees, which answers let it go on and which commands it issues, where guarantees end, and what a parent receipt proves |
| `OciArchive` | `tools/candidate_image_build.py`: the index walk over the blobs of an image archive |
| `OwnershipGlob`, `OwnershipNewline`, `OwnershipRegistry` | `tools/validate_contracts.py`: the glob compiler, its gap at newlines, and the ownership partition |
| `AmendmentChain` | `tools/verify_freeze_receipt.py`: the amendment walk |
| `ObservationReadiness` | `tools/bridge_observation_readiness.py`: the three-valued verdict |
| `RecipientShadow` | `tools/recipient_shadow.py`: the paired evaluation |
| `TrailerBlock` | `tools/verify_r08b_trailer_identity.py`: the trailer parser |
| `Text` | optional values, code-point order, sorting and set idioms the others share |

Conventions. JSON documents are datatypes, so a wrong JSON type or a missing key is outside the type
or an explicit `None`. Instants are integer microseconds; where the code compares timestamp texts
the text is kept beside the instant. Every digest is a function parameter. Where a lemma needs it to
tell values apart, the hypothesis is about exactly the values that lemma compares, so that a real
digest can meet it. A raised error is `None`, `Failed` or `false`; its text is kept only where it is
the result (`OwnershipRegistry`). Straight-line validators are predicates, loops and state changes
are methods proved against a specification, and the lemmas are about that specification. What the
outside world answers to the deploy controller is an input, one reply for each event: done, refused
(a non-zero exit) or raised (the runner gave up).

## Where the code does less than it seems to promise

Each point is proved with the exact condition under which the promise holds. Where a lemma exhibits a
concrete failing input, it is named.

- A restore is meant to leave nothing at the target but the restored source and the directories above
  it. `os.walk` is called with its default error handler and skips directories it cannot list, so the
  guarantee holds for a readability profile of that chain if and only if every directory in it can be
  listed (`RestoreEnvelope.EnvelopeGuarantee`, `RestoreEnvelope.UnreadableIsUnsafe`).
- A receipt path never shows a partial receipt, in any run and after any power loss, if and only if
  its name is not one the temporary-file factory can draw (`ReceiptPublication.PublicationGuarantee`).
- An issued backup receipt validates if and only if the clock did not run backwards and the release
  object id does not begin with a repository reference prefix (`BackupRestore.IssuedReceiptValidates`,
  `BackupRestore.ReservedReleaseIsRefused`).
- `parse_terminal_block` can raise `IndexError` instead of its own error: exactly when one of the last
  four lines is a bare key that is reached past good values (`TrailerBlock.IndexErrorExactly`,
  `TrailerBlock.BareKeyMessageRaises`).
- `ownership_failures` raises on unhashable JSON values: exactly when an owner is a list or object, or
  there is a live path and `root_only` holds one (`OwnershipRegistry.OwnershipFailures`,
  `OwnershipRegistry.ListOwnerRaises`).
- `**` in an ownership pattern does not match a newline, because the produced `.*` does not. A pattern
  means what it should on every path if and only if it has no `**`, and every pattern does on a path
  if and only if the path has no newline (`OwnershipNewline.PatternGuarantee`,
  `OwnershipNewline.PathGuarantee`). A file name with a newline below `src` is unowned under `src/**`
  (`OwnershipNewline.UnownedFile`).
- The readiness report cuts its expiry to the second. The verdict stands exactly until the reported
  instant if and only if the earliest expiry is a whole second; a report can be TRUE and already
  expired (`ObservationReadiness.ReportedExpiry`, `ObservationReadiness.TrueReportedAsExpired`).
- A passing conflicting-writer check rules out a live predecessor if and only if its answers are
  conclusive: both quiet questions and the inner `container inspect` were answered, or nothing could
  pass (`DeploymentLimits.ConflictCheckGuarantee`, `DeploymentLimits.LivePredecessorPasses`).
- A deployment forces the service to stop if and only if it reached the staged unit file with the
  frozen digest and one of move, reload and enable was then not done. Any other failure stops
  nothing, also with a drifted container up and running (`DeploymentSafety.ForcedStopExactly`,
  `DeploymentLimits.DriftedContainerStaysUp`).
- The forced stop is not shielded from a runner that raises. It leaves the service stopped if and only
  if both of its first two commands are done, and sends the container no stop if and only if the
  first one raises, also after a changed pause digest (`DeploymentSafety.ForcedStopGuarantee`,
  `DeploymentSafety.ChangedPauseNeverPasses`, `DeploymentLimits.ChangedPauseStaysUp`).
- `_verified_parent_receipt` looks at no evidence, and the payload digest has no key. A rollback (or
  boundary) receipt came out of a passing run of that action on this release if and only if it is
  accepted, carries a time of issue and no foreign member, and its evidence has the one shape that
  action writes. Two members of evidence are enough to be accepted (`DeploymentReceipts.RollbackParentIsIssued`,
  `DeploymentReceipts.BoundaryParentIsIssued`, `DeploymentReceipts.BareEvidenceIsAccepted`,
  `DeploymentReceipts.ForeignMemberIsAccepted`).

Rejecting backslashes first is not needed for the glob compiler: the staged rewrite equals the one-pass
compile for every pattern (`OwnershipGlob.StagedIsOnePass`).

## Model

| member | source | states |
|---|---|---|
| ObservationGate.ValidatePolicy | tools/observation_window_gate.py:177-227 | The loop over the frozen sequence accepts exactly the policies whose rules are in range, divide into buckets and name their predecessor |
| ObservationGate.CheckProofs | tools/observation_window_gate.py:252-268 | The loop accepts exactly non-empty, duplicate-free lists bound to the fingerprint and valid to the end |
| ObservationGate.ValidateChain | tools/observation_window_gate.py:529-540 | The loop that passes each checkpoint on as the next predecessor accepts exactly the chains every step of which is accepted |
| ObservationGate.ValidateBuckets | tools/observation_window_gate.py:572-604 | The accumulating loop accepts exactly the bucket lists that are chronological, conserve the counters and are spread widely enough |
| ObservationGate.ValidateCloseout | tools/observation_window_gate.py:467-610 | Full validation of a closeout is exactly the conjunction `CloseoutOk`, which `ObservationMeaning.CloseoutMeans` proves equivalent to its reference definition |
| ObservationMeaning.PolicyMeans | tools/observation_window_gate.py:177-227 | A policy is accepted exactly if identity, sequence, fields and the four rules are as frozen, every threshold in range, buckets divide the window and no spread asks for more of them |
| ObservationMeaning.StartMeans | tools/observation_window_gate.py:294-358 | A start is accepted exactly if it plans a window of the policy: identity, digests, duration, clean baseline, proofs to the end, and the window before it |
| ObservationMeaning.PriorMeans | tools/observation_window_gate.py:361-403 | Any document serves as a predecessor exactly if it is intrinsically valid by itself, and its own state is read off it |
| ObservationMeaning.ChainMeans | tools/observation_window_gate.py:361-464 | The step checks against the direct predecessor accept exactly the chains that are right as a whole: each point against the start, each pair of points monotone |
| ObservationMeaning.MinimaMean | tools/observation_window_gate.py:554-571 | The minima are met exactly if, for each of the seven counted kinds, the increments of the steps sum to that kind's threshold, and provider accounts are settled |
| ObservationMeaning.CloseoutMeans | tools/observation_window_gate.py:467-610 | A closeout is accepted exactly if it meets the reference definition over all documents: bindings, chain, work done by the steps, buckets in sequence whose sums are that work, proofs and parents |
| ObservationHistory.AdvanceAnchors | tools/observation_window_gate.py:444-457 | The step rule telescopes: reset-counter growth since baseline stays equal to the number of reset refs, and counters stay above the baseline |
| ObservationHistory.AcceptedIsExtendable | tools/observation_window_gate.py:368-403 | The independent re-check of an accepted checkpoint always succeeds and recovers exactly its state |
| ObservationHistory.ChainIsExtendable | tools/observation_window_gate.py:368-403 | The last document of an accepted chain, or the start, is always a usable predecessor |
| ObservationHistory.ChainAt | tools/observation_window_gate.py:406-464 | Checkpoint i of an accepted chain has index i+1 and takes an anchored state to an anchored state |
| ObservationHistory.ChainExtends | tools/observation_window_gate.py:438-453 | Any later checkpoint is later in time and keeps every counter, incident and reset of any earlier one |
| ObservationHistory.ChainIsSafe | tools/observation_window_gate.py:406-464 | Checks against the direct predecessor alone make every point and every pair of points of the run safe |
| ObservationHistory.CloseoutHistory | tools/observation_window_gate.py:529-556 | In an accepted closeout checkpoints are numbered from 1, lie in (start, end] with only the last at the end, all counters are monotone from the baseline, zero-tolerance counters are 0 throughout, and reset growth equals the number of reset refs |
| ObservationHistory.IncidentsSettle | tools/observation_window_gate.py:549-553 | Closed incidents never become active again, and every incident active at any checkpoint is closed at closeout |
| ObservationWorkload.BucketsTileTheWindow | tools/observation_window_gate.py:573-587 | An instant lies in the window if and only if it lies in a bucket, and then in exactly one |
| ObservationWorkload.TallyCounts | tools/observation_window_gate.py:591-596 | The loop's nonzero counts are the cardinalities of the sets of busy buckets |
| ObservationWorkload.ProviderFreeEverywhere | tools/observation_window_gate.py:568-569 | In a provider-free window every bucket and every intermediate checkpoint shows zero new provider calls |
| ObservationWorkload.CloseoutWorkload | tools/observation_window_gate.py:572-604 | Buckets tile the planned interval, their sums are the counter deltas, and enough distinct buckets are busy |
| ObservationSample.SmallestProgramIsAccepted | tools/observation_window_gate.py:467-610 | A program of all four windows is accepted in full, so what the theorems require can be met |
| ObservationSample.SmallestProgramHasNoCollision | tools/observation_window_gate.py:271-291 | No two documents hashed in that program share a digest |
| ObservationProgram.FullIsStructural | tools/observation_window_gate.py:491-503 | Every fully accepted closeout is also accepted structurally, as a predecessor must be |
| ObservationProgram.RunFollowsSequence | tools/observation_window_gate.py:209-224 | The k-th window of any accepted run is the k-th of the frozen sequence |
| ObservationProgram.ProgramIsSequential | tools/observation_window_gate.py:335-355 | Any run of accepted windows has at most four, in fixed order, with disjoint intervals and one release fingerprint throughout |
| ObservationProgram.CloseoutPinsWindow | tools/observation_window_gate.py:513-547 | Unless two documents hashed in the two windows collide, a closeout payload determines the start payload and every checkpoint payload |
| ObservationProgram.CloseoutPinsProgram | tools/observation_window_gate.py:271-291 | Unless two documents hashed in the two runs collide, the object id of the last closeout determines the length and every payload of the whole program |
| TreeManifest.SortedScanIsListed | tools/release_backup_restore.py:230-231 | Sorting any scan order of a directory gives the one increasing listing of its names |
| TreeManifest.ManifestBuilder.Visit | tools/release_backup_restore.py:222-265 | The walk succeeds exactly on plain trees, appends the canonical listing whatever the scan order, and keeps its running totals equal to the counts of the list |
| TreeManifest.ManifestBuilder.VisitChild | tools/release_backup_restore.py:245-265 | One child contributes exactly its entries, or stops the walk for a link or special file |
| TreeManifest.CanonicalTreeManifest | tools/release_backup_restore.py:203-277 | A manifest is returned exactly for a plain directory that holds a file, and it is the canonical one |
| TreeManifest.CountsPartitionTheList | tools/release_backup_restore.py:217-277 | Files and directories together are the entries, and there is a file exactly when the file count is positive |
| TreeOrder.ListingIsAllInOrder | tools/release_backup_restore.py:222-265 | The entry list is the entries of all files and directories below the root, each once, in the order of their component lists |
| TreeOrder.ManifestTotalsTheTree | tools/release_backup_restore.py:217-277 | The manifest's bytes are the sum of all file sizes in the tree, and its file count the number of file entries |
| TreeManifest.EntriesBelow | tools/release_backup_restore.py:234-240 | Every entry of a subtree lies below the child name it was reached by |
| TreeManifest.ListingDeterminesTree | tools/release_backup_restore.py:222-265 | Equal entry lists come from equal trees: names, kinds, sizes, digests, empty directories |
| TreeManifest.ManifestIdentifiesTree | tools/release_backup_restore.py:270-277 | Unless their listings collide, two accepted trees have the same manifest digest if and only if they are equal |
| RestoreEnvelope.Ancestors | tools/release_backup_restore.py:958-966 | The climb terminates for a source below the target and collects exactly the directories from the target to the source's parent |
| RestoreEnvelope.WalkEnvelope | tools/release_backup_restore.py:967-984 | The walk accepts exactly when everything it can list is the source, below it, or a directory on the way to it, and no link |
| RestoreEnvelope.VerifyRestoreEnvelope | tools/release_backup_restore.py:957-986 | The whole check, which also refuses a source with no component of its own |
| RestoreEnvelope.AcceptedTreeIsSealed | tools/release_backup_restore.py:957-986 | With a listable chain an accepted target holds only that chain and the source, no link anywhere, and the source is found without following a link |
| RestoreEnvelope.EnvelopeGuarantee | tools/release_backup_restore.py:968-970 | Acceptance seals every tree with a given readability profile of the chain if and only if the profile is readable throughout |
| RestoreEnvelope.UnreadableIsUnsafe | tools/release_backup_restore.py:968-970 | For any chain with an unlistable directory, a concrete accepted tree that is not sealed |
| BackupRestore.IssuedReceiptValidates | tools/release_backup_restore.py:852-936 | An issued backup receipt validates, with the issued values, exactly when the clock did not go back and the release id is not a repository reference |
| BackupRestore.ValidationMeans | tools/release_backup_restore.py:852-936 | Validation returns exactly what a receipt certifies: its identity, integrity, claims and times, and the one reference of each kind of repository binding |
| BackupRestore.SnapshotMeans | tools/release_backup_restore.py:651-690 | A source is returned exactly for the one snapshot with the id, all required tags and one usable absolute path |
| BackupRestore.ReservedReleaseIsRefused | tools/release_backup_restore.py:911-928 | An issued receipt that is refused because its release id looks like a repository reference |
| BackupRestore.Controller.Backup | tools/release_backup_restore.py:772-850 | A receipt is issued exactly when the receipt path is free, the release manifest is accepted, both device checks pass, source, snapshot, tags and read-back agree, and publication succeeds; it records the manifest of the source |
| BackupRestore.Controller.Restore | tools/release_backup_restore.py:988-1095 | A restore receipt is issued exactly when its path is free, receipt, devices, repository, snapshot, tree, manifest and clock all agree, whatever the subprocess did, and publication succeeds; its recovery figures are the least whole seconds from the backup's end and over the restore, and its references name the repository of the backup |
| BackupRestore.RestoreReturnsTheBackedUpTree | tools/release_backup_restore.py:1032-1051 | A restore that succeeds on the receipt of a successful backup finds exactly the backed-up tree, unless the two listings collide, and with a listable chain nothing else |
| ReceiptPublication.StepIsInvariant | tools/release_backup_restore.py:743-770 | Every step of every interleaving keeps temporary files private and published files complete and synced |
| ReceiptPublication.NeverOverwritten | tools/release_backup_restore.py:755-762 | Once a receipt path shows something, it shows the same bytes for the rest of the run |
| ReceiptPublication.CrashIsSound | tools/release_backup_restore.py:752-760 | After a power loss at any state a receipt from before the run is still there unchanged, and any other path is absent or shows one complete receipt |
| ReceiptPublication.SuccessIsDurable | tools/release_backup_restore.py:755-760 | A writer that reports success has its own complete receipt durably at its path in every later state |
| ReceiptPublication.SuccessSurvivesCrash | tools/release_backup_restore.py:755-760 | Once a writer has reported success, every later power loss leaves its own complete receipt at its path |
| ReceiptPublication.LoneWriterSucceeds | tools/release_backup_restore.py:734-768 | From any state a writer with a free target that is left alone publishes its complete receipt durably and changes nothing else |
| ReceiptPublication.PublicationGuarantee | tools/release_backup_restore.py:744-755 | A path shows only untouched, absent or complete content, in every run and after every power loss, if and only if its name cannot be drawn for a temporary file |
| DeploymentController.Controller.AssertNoConflictingWriter | tools/pre_soak_deploy.py:1457-1478 | Asks its three questions in order and passes, or stops, exactly where the run `DeploymentOrder.ConflictExactly` characterizes does |
| DeploymentController.Controller.VerifyRunning | tools/pre_soak_deploy.py:1480-1483 | Follows the verification plan; a returned pause state is the host's |
| DeploymentController.Controller.StageContent | tools/pre_soak_deploy.py:1182-1270 | Issues the staging commands and digest checks of the plan in order, with and without a capsule, and stops at the first that fails |
| DeploymentController.Controller.InstallSavedUnit | tools/pre_soak_deploy.py:1275-1287 | Stages and checks the unit, activates it, and on a failure of activation alone runs the forced stop and still fails |
| DeploymentController.Controller.ForceStopped | tools/pre_soak_deploy.py:1289-1296 | Issues its commands in order; a refusal of the first two is ignored, an error of the runner is not |
| DeploymentController.Controller.Deploy | tools/pre_soak_deploy.py:1485-1543 | Ends with the host, the events and the verdict of the deployment run, also when any command fails; so its trace is safe, and a pass means the release is installed, running and staged and the receipt describes the final host |
| DeploymentController.Controller.RebootBoundary | tools/pre_soak_deploy.py:1545-1562 | Ends like the boundary run and changes nothing; a pass has seen the release running and records the boot identity and the pause digest |
| DeploymentController.Controller.VerifyReboot | tools/pre_soak_deploy.py:1564-1597 | Ends like the verification run and changes nothing; a pass means a changed boot identity and the recorded pause digest, and names the parent |
| DeploymentController.Controller.Rollback | tools/pre_soak_deploy.py:1599-1631 | Ends like the rollback run and keeps saved unit, images and config volume; a pass means the running release was stopped and its unit retired, and records the pause state from before |
| DeploymentController.Controller.Redeploy | tools/pre_soak_deploy.py:1633-1673 | Ends like the redeployment run; a pass means the release is installed and running with the pause digest of the receipt it names |
| DeploymentRuns.Established | tools/pre_soak_deploy.py:880-895 | What a passed check has seen still holds at the end of a passing run if no later command can touch it |
| DeploymentRuns.PlaySpares | tools/pre_soak_deploy.py:880-895 | No run of a plan, failing ones included, changes a part of the host none of its commands touches |
| DeploymentSafety.WorkAfterAuthorizationIsSafe | tools/pre_soak_deploy.py:1502-1509 | Check, accepted callback, second check, then work without another callback is a safe trace |
| DeploymentSafety.DeployTraceIsSafe | tools/pre_soak_deploy.py:1485-1511 | In every run, failing ones included, the callback runs at most once and no mutation precedes its accepted result or the two conflict checks |
| DeploymentSafety.StageMeans | tools/pre_soak_deploy.py:1182-1270 | Staging leaves service, live unit and container alone; a pass means archive, image, config file, config volume and saved unit are the verified ones |
| DeploymentSafety.DeployPasses | tools/pre_soak_deploy.py:1485-1543 | A pass means the release is staged, installed under its frozen unit digest, active, enabled and running |
| DeploymentOrder.FirstChecksExactly | tools/pre_soak_deploy.py:1491-1501 | The checks of a deployment pass exactly on these answers: preflight, conflicts, service not seen active, and no container but this release's stopped one, confirmed twice |
| DeploymentOrder.PreparationExactly | tools/pre_soak_deploy.py:1502-1509 | With a callback, its acceptance and a second passing conflict check come on top |
| DeploymentOrder.ForeignContainerStops | tools/pre_soak_deploy.py:1498-1501 | A deployment that is shown a container of another release, or a running one, fails without having changed anything |
| DeploymentOrder.DeployIssuesInOrder | tools/pre_soak_deploy.py:1182-1287 | Without a forced stop a deployment issues the staging and activation commands in this order, up to its failure, and all of them if it passes |
| DeploymentSafety.RollbackPasses | tools/pre_soak_deploy.py:1599-1631 | A pass found the release running and leaves it stopped and disabled, its unit retired, its container and config volume kept |
| DeploymentOrder.RollbackIssuesInOrder | tools/pre_soak_deploy.py:1599-1613 | A rollback issues disable, stop and retire in this order, up to its failure |
| DeploymentSafety.RedeployPasses | tools/pre_soak_deploy.py:1633-1673 | A pass runs the release again with the pause digest the rollback receipt recorded, its saved unit, image and config volume untouched |
| DeploymentOrder.RedeployReadyExactly | tools/pre_soak_deploy.py:1645-1650 | A redeployment goes on exactly on a host with the service not seen active and the unit, image and stopped container of the release |
| DeploymentOrder.RedeployIssuesInOrder | tools/pre_soak_deploy.py:1651-1652 | A passing redeployment issues stage, move, reload and enable, and nothing else |
| DeploymentOrder.RunningExactly | tools/pre_soak_deploy.py:1480-1483 | A release is verified exactly if it is up and all four questions are answered |
| DeploymentOrder.WithoutPreflightNothingPasses | tools/pre_soak_deploy.py:924-974 | Without an answer to all three preflight questions none of the other four actions passes, and none changes the host |
| DeploymentSafety.RestoredByRedeploy | tools/pre_soak_deploy.py:1599-1673 | Deploy, rollback, redeploy, each answered arbitrarily: three passes restore flags, live unit, container, images, config volume, saved unit and pause digest, and unit bytes and pause state unless their digests collide |
| DeploymentSafety.VerifiedRebootHappened | tools/pre_soak_deploy.py:1545-1597 | If boundary and verification pass, the boot identity changed, the pause digest did not, the release ran on both sides, and neither action changed the host |
| DeploymentSafety.ForcedStopCommands | tools/pre_soak_deploy.py:1289-1296 | The service is always told to stop; the container exactly if that did not raise; the unit is retired exactly if neither raised |
| DeploymentSafety.ForcedStopGuarantee | tools/pre_soak_deploy.py:1289-1296 | Every forced stop with two given outcomes leaves the service stopped if and only if both are done |
| DeploymentSafety.ForcedStopExactly | tools/pre_soak_deploy.py:1275-1287 | A deployment forces the stop exactly if the staged unit passed its digest check and one of move, reload and enable was not done; otherwise it issues no stopping command at all |
| DeploymentSafety.UnforcedFailure | tools/pre_soak_deploy.py:1485-1513 | Without a forced stop a failed deployment leaves service, live unit and container as they were, or the host as enabling left it |
| DeploymentSafety.ChangedPauseNeverPasses | tools/pre_soak_deploy.py:1653-1655 | A running release with another pause digest never passes and is told to stop, as far as the answers to the stop let it |
| DeploymentReceipts.RollbackParentIsIssued | tools/pre_soak_deploy.py:1599-1631 | Some passing rollback run issued the receipt if and only if it is accepted as a parent, carries a time of issue and no foreign member, and its evidence is exactly the shape of a rollback |
| DeploymentReceipts.BoundaryParentIsIssued | tools/pre_soak_deploy.py:1545-1562 | The same for the receipt of a reboot boundary |
| DeploymentReceipts.BareEvidenceIsAccepted | tools/pre_soak_deploy.py:1638-1644 | A receipt redeployment goes on from although no rollback can have issued it, with the known members only |
| DeploymentReceipts.ForeignMemberIsAccepted | tools/pre_soak_deploy.py:1738-1758 | Receipts with a member or a time of issue the controller never writes, from which redeployment goes on |
| DeploymentLimits.ConflictCheckGuarantee | tools/pre_soak_deploy.py:1457-1478 | A passing check rules out a live predecessor on every host if and only if its answers are conclusive |
| DeploymentLimits.LivePredecessorPasses | tools/pre_soak_deploy.py:1464-1475 | For every inconclusive set of answers, a host whose live predecessor the check passes |
| DeploymentLimits.DriftedContainerStaysUp | tools/pre_soak_deploy.py:1275-1287 | A deployment whose commands all work passes exactly if the container conforms; a drifted one stays up in a failed deployment that stops nothing |
| DeploymentLimits.ChangedPauseStaysUp | tools/pre_soak_deploy.py:1289-1296 | A changed pause digest that is noticed while, the disabling command having raised, no stop reaches the running container |
| OciArchive.DeeperIsSmaller | tools/candidate_image_build.py:438-441 | The termination measure: each level of the walk leaves fewer blobs outside the ancestors |
| OciArchive.LookMeans | tools/candidate_image_build.py:429-455 | A descriptor breaks the walk exactly for the listed faults of itself, its blob or its document; a manifest matches exactly if its config is the stored one; only a non-empty index leads further |
| OciArchive.Walker.Visit | tools/candidate_image_build.py:429-459 | The recursive walk returns the specified outcome and adds exactly the digests of the matching chain |
| OciArchive.Walker.AnyChild | tools/candidate_image_build.py:454-463 | The short-circuiting `any` stops at the first child that matches or raises |
| OciArchive.WalkIsFirstStop | tools/candidate_image_build.py:429-463 | The walk ends at the first route, in depth-first order, that breaks or matches, and misses exactly when no route does |
| OciArchive.OtherManifestsAreSkipped | tools/candidate_image_build.py:448-463 | Verified manifests of other configs in front of a list change nothing of its outcome |
| OciArchive.MatchIsChain | tools/candidate_image_build.py:439-459 | A match is a path of hash-verified blobs, without repetition, from a listed descriptor to a manifest naming the config |
| OciArchive.BoundDigestsAreTheFirstChain | tools/candidate_image_build.py:420-464 | The reported digests are the nodes of the chain at the first stopping route |
| OciArchive.ArchiveIdentity | tools/candidate_image_build.py:402-464 | The identity is the stored config's digest with the chain's digests, or nothing if the index is invalid or does not bind the config |
| OciArchive.PortableIdIsBound | tools/candidate_image_build.py:471-490 | For every archive with an identity the local id is accepted exactly if the config digest has its syntax and the id is that digest or a bound one; the portable id is always the config's; other ids need an index and are verified blobs of the chain |
| OwnershipGlob.StageOne | tools/validate_contracts.py:58-59 | Escaping and the first replacement pair the stars from the left, as the one-pass tokens do |
| OwnershipGlob.StageRewrites | tools/validate_contracts.py:60-61 | The later replacements rewrite exactly the remaining wildcard tokens |
| OwnershipGlob.StagedIsOnePass | tools/validate_contracts.py:58-62 | The staged textual rewrite equals a one-pass left-to-right compile, for every pattern |
| OwnershipGlob.RenderedParsesBack | tools/validate_contracts.py:58-62 | Reading the produced regex back, with a regex's own metacharacters, gives the tokens it was rendered from |
| OwnershipGlob.CompiledMatchIsGlobMatch | tools/validate_contracts.py:48-66 | A full match of the compiled regex is the recursive meaning of the glob with `**` stopping at newlines, and so is the backtracking matcher |
| OwnershipNewline.MatchIsMeant | tools/validate_contracts.py:48-66 | Whatever the regex matches, the unrestricted glob meaning matches; on a path without newline they are the same |
| OwnershipNewline.PatternGuarantee | tools/validate_contracts.py:58-62 | A pattern agrees with its unrestricted meaning on every path if and only if it has no `**` |
| OwnershipNewline.PathGuarantee | tools/validate_contracts.py:58-77 | Every pattern agrees with its unrestricted meaning on a path if and only if the path has no newline |
| OwnershipNewline.MissedBelow | tools/validate_contracts.py:65-77 | A path with a newline below a directory is meant, but not matched, by the double star of that directory |
| OwnershipGlob.SegmentGlobKeepsDepth | tools/validate_contracts.py:49-61 | A pattern without `**` matches only paths with the same number of slashes |
| OwnershipRegistry.CompilePatterns | tools/validate_contracts.py:105-117 | No failure exactly for string patterns that are safe and pairwise distinct, and then all are compiled |
| OwnershipRegistry.CheckOwners | tools/validate_contracts.py:119-122 | No failure exactly if every owner is allowed; raises exactly on an unhashable owner |
| OwnershipRegistry.CheckLiveness | tools/validate_contracts.py:124-132 | No failure exactly if every pattern of the group is live, or none is, as demanded |
| OwnershipRegistry.CheckPaths | tools/validate_contracts.py:134-143 | No failure exactly if each live path is matched by exactly one owning pattern |
| OwnershipRegistry.OwnershipFailures | tools/validate_contracts.py:81-145 | A text is in the report exactly for the stated cause; the report is empty exactly for an exact partition, always sorted and duplicate-free; the check raises exactly on an unhashable value it looks up |
| OwnershipRegistry.SafePatternMeans | tools/validate_contracts.py:51-57 | A pattern is safe exactly if it has no backslash and is a path of parts, none empty and none a dot name |
| OwnershipRegistry.ListOwnerRaises | tools/validate_contracts.py:119-122 | A registry with a list for an owner, on which the check raises |
| AmendmentChain.VerifyAmendmentChain | tools/verify_freeze_receipt.py:40-78 | Succeeds if and only if a path exists from frozen to current each step of which is the only amendment out of its digest and well formed; returns it, in at most one more iteration than there are receipts |
| AmendmentChain.PathHasNoRepeat | tools/verify_freeze_receipt.py:59-61 | A complete path has no repeated digest and never contains the frozen one, which the cycle guard does not list |
| AmendmentChain.CandidatesAreThoseOut | tools/verify_freeze_receipt.py:43-49 | The candidates are one amendment exactly if one position holds an amendment out of the cursor, and then they are that amendment |
| AmendmentChain.ForkHasNoPath | tools/verify_freeze_receipt.py:48-49 | Two amendments out of one digest of a path leave no path |
| AmendmentChain.PathIsUnique | tools/verify_freeze_receipt.py:43-49 | There is at most one such path |
| ObservationReadiness.CheckInput | tools/bridge_observation_readiness.py:210-290 | One round adds each reason exactly for its stated cause |
| ObservationReadiness.CheckSignal | tools/bridge_observation_readiness.py:294-322 | A signal adds each reason exactly for its stated cause, and none exactly if it is well formed and unexpired |
| ObservationReadiness.Evaluate | tools/bridge_observation_readiness.py:206-360 | Every reason is in the report exactly if it is justified; TRUE exactly without reasons, FALSE exactly with the explicit negative alone; the reported expiry is the earliest of the inputs without fault, cut to the second; a definite verdict means three sound inputs of one release |
| ObservationReadiness.ReadinessOnlyDecays | tools/bridge_observation_readiness.py:265-344 | For fixed inputs a later clock keeps the verdict or turns it into UNKNOWN |
| ObservationReadiness.VerdictStandsUntilHorizon | tools/bridge_observation_readiness.py:329-344 | A definite verdict stands exactly until the earliest expiry, to the microsecond |
| ObservationReadiness.ReportedExpiry | tools/bridge_observation_readiness.py:336 | A definite verdict stands up to the reported expiry, exactly up to it if and only if the earliest expiry is a whole second, and is reported as expired exactly in the second it expires in |
| ObservationReadiness.TrueReportedAsExpired | tools/bridge_observation_readiness.py:336 | A request that is TRUE with a reported expiry in the past |
| RecipientShadow.EvaluateRecipientShadow | tools/recipient_shadow.py:91-119 | The loop with its early rejections yields the specified report |
| RecipientShadow.PositiveExactly | tools/recipient_shadow.py:96-119 | A positive status holds exactly when the case sets agree and every pair is bound, in bounds, clean and strictly better |
| RecipientShadow.VerdictExactly | tools/recipient_shadow.py:91-129 | Status, reason and number of pairs follow from the case sets, the first faulty pair and its first fault, then poison, negative flags and scores; the mean is the floor of the treatment total less the control total over the cases |
| RecipientShadow.OrderDoesNotMatter | tools/recipient_shadow.py:92-96 | The whole report is the same however either observation list is permuted |
| RecipientShadow.MeanLiesInInterval | tools/recipient_shadow.py:122-129 | The floor mean lies between the smallest and largest delta, which bound all deltas and occur among them |
| TrailerBlock.ParseTerminalBlock | tools/verify_r08b_trailer_identity.py:40-61 | The popping, counting and reading loops yield the specified outcome |
| TrailerBlock.AcceptedExactly | tools/verify_r08b_trailer_identity.py:45-61 | A message is accepted exactly when its last four nonblank-terminated lines carry the keys in order with values and no other line carries one |
| TrailerBlock.IndexErrorExactly | tools/verify_r08b_trailer_identity.py:57 | The lookup error occurs exactly on a bare key in the block reached past good values |
| TrailerBlock.BareKeyRaises | tools/verify_r08b_trailer_identity.py:51-57 | Concrete lines on which it does |
| TrailerBlock.BareKeyMessageRaises | tools/verify_r08b_trailer_identity.py:41-57 | The messages, line breaks included, that split into such lines and raise |
| TrailerBlock.RoundTrip | tools/verify_r08b_trailer_identity.py:40-61 | A body without key lines, four rendered trailers and trailing blank lines parse back to exactly the rendered values |
| TrailerBlock.StripMeans | tools/verify_r08b_trailer_identity.py:58 | A value is the part of the text between its outer white space |
| TrailerBlock.PaddedRoundTrip | tools/verify_r08b_trailer_identity.py:40-61 | Whatever white space surrounds the values, with newlines or carriage returns and newlines as line ends, the message yields the values without it |

## Left out

- Timestamp text parsing, JSON decoding, `_REF_RE`, `_SHA256_RE` and `_GIT_RE`: the syntaxes are parameters or explicit "does not parse" cases.
- Failure texts and failure codes, except the ownership report.
- `int(total_seconds())` is modelled as exact truncation; the rounding of a float beyond 2^33 seconds is not.
- That re-validating a policy changes nothing: a policy is a typed value here, so the copy a validator returns is the value itself.
- `_skip_previous_document` of `validate_start`: no caller sets it.
- Concurrent modification of a file while it is hashed, file modes other than listability, and the time between a check and the next step.
- TreeManifest.ListingDeterminesTree: a file is its size and digest, so equal listings give equal contents only as far as the file digest identifies them.
- How the separation of devices is proved (its two results are inputs), the re-validation of the secret files before every execution, and the command line restic is given.
- ReceiptPublication.SuccessIsDurable: says nothing about a writer that reports failure; its receipt may exist, because the directory sync after the link can still fail.
- DeploymentController.Controller.Redeploy: does not check for a conflicting writer, because the code does not.
- DeploymentController.Controller.Deploy: authorization evidence and capsule contents are not part of the receipt model; the capsule only selects the extra staging steps, and its objects are not inspected again before their transfer. A callback that raises counts as one that does not accept.
- DeploymentReceipts.RollbackParentIsIssued: the bundle is any value of its type; the loader that derives it from files is not part of this model.
- DeploymentSafety.RollbackPasses: speaks of the config volume only; the runtime volume is seen through the pause digest.
- Shell text, SSH, scp, Docker and systemd beyond each command's effect; the reservation and finalization of the deployment receipt file.
- OciArchive.ArchiveIdentity: the digests are a set, not the sorted tuple; a blob missing from the archive is one failure whether the library raises or returns nothing.
- `_forbidden_scan` and the input bindings of the readiness report: only easy members.
- Recipient eligibility and the loading of the shadow profile: `recipient_eligibility` is not part of this model.
- The receipt and Git checks around the trailer parser and around the amendment walk.
- The fixed-constant validators, the model-provider files and the remaining tools: single equality checks, or code resting on modules not shown.
