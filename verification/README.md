# HackBento in Dafny

HackBento runs training environments as Firecracker microVMs. An orchestrator keeps
one table row per environment and one VM per running row, while start requests,
users, administrators, a watchdog and startup cleanup all act on both at once. This
project models that protocol and the other algorithms of the orchestrator that have
something to prove, and proves what they are for. `dafny verify dfyconfig.toml`
checks it.

| modules | what they hold |
|---|---|
| `Environments`, `EnvironmentSafety`, `EnvironmentStatus`, `EnvironmentLifetime` | the environment lifecycle as a transition system: rows, live VMs, requests in flight, stoppers in flight; its inductive invariant and what follows over every run |
| `EnvironmentEffects` | what each of these operations does, said in the columns of the rows alone |
| `Orchestrators` | the same operations as methods that update the table in place, each proved to be a step of that system, and a whole watchdog pass |
| `WorkQueue`, `AssetFiles`, `Workers` | the three conversion and build queues, and when a ready asset names a file |
| `FileTree`, `PosixPath`, `TarResolve`, `TarExtract`, `TarConfinement`, `TarArchives`, `Bundle` | a file system with links, path normalisation, unpacking a tar into a directory and exactly when that stays inside, accepting a Compose bundle |
| `Network`, `Subnet` | the address pool, address and MAC text, the mask arithmetic of setup.sh |
| `BootArgs`, `Compose`, `Usernames`, `Text`, `Sets`, `Wrappers` | kernel arguments, the two Compose checks, user names, shared text functions |

A committed write transaction is one step, because every one of them begins with
`BEGIN IMMEDIATE` (`orchestrator/database.py:38-53`). Booting a VM, stopping one, a VM
dying, a commit that fails, the passing of time and a crash are steps of their own.
What the code learns from outside (the neighbour table, the clock, an image's timeout,
which VMs outlive a crash) is part of the event. VM ids are fresh, `stop_vm` succeeds,
and settings and roles are fixed within a run. The re-read of a row after boot is a
read of the committed row, as the comment beside it intends.

## What the proofs found

- `safe_extract_tar` promises to write only inside its destination, and for some
  archives it does not. A link whose target does not exist is accepted by its text
  (`orchestrator/services/rootfs_tar.py:146-148`), and when that text passes through
  another link, `makedirs` and `open` follow it. `TarArchives.ConfinementFails` gives
  three members that leave a file outside. `TarConfinement.EntryConfined` is the exact
  condition for one entry: it stays inside unless the real path of the longest existing
  part of its parent, with the rest below it, is a new place outside.
  `TarConfinement.ExtractionConfined` is the exact condition for a whole run, and
  `TarArchives.OrdinaryArchivesAreConfined` a test of the names alone that a caller can
  make beforehand: no member below a member that is a link.
- A commit that fails after the VM came up is handled by the project route
  (`orchestrator/routers/envs.py:206-216`) and not by the Attack Machine route
  (`orchestrator/routers/attack_machine.py:208-228`). There the VM is lost exactly when
  its row is not live and naming it, or was claimed before it did: always when the
  commit of the vm_id fails, and not when only that of the hand-over does, as long as
  the row is still `starting` (`EnvironmentSafety.FailedCommit`). A lost VM survives
  every later restart unless it ends by itself (`EnvironmentSafety.OrphanForever`);
  `EnvironmentSafety.DroppedStartLosesVm` is a run that loses one.
- `ready` implies that the file exists in every run in which no asset is deleted while
  it is converted or registered, and no crash comes between the removal of the files of
  a ready asset and the commit of its deletion
  (`orchestrator/routers/admin.py:459-468`); every other deletion or crash breaks it, at
  once or in some continuation: `AssetFiles.ReadyAssetsExist` and
  `AssetFiles.CarelessStepBreaks`. Between the two halves of a deletion a reader still
  sees the row without its file. The same crash, exactly when the asset waits for its
  conversion, leaves it without its archive (`WorkQueue.ArchivesKept`,
  `WorkQueue.LostArchive`). `AssetFiles.CrashedDeletionRun`,
  `AssetFiles.LateDeletionRun` and `WorkQueue.LostArchiveRun` are runs from the start.
- `_resolve_within` passes only real paths exactly when the links it follows lead to
  something that exists, or have a target that passes through no link:
  `TarResolve.RealWalks`.
- setup.sh checks neither the range of octets nor leading zeros, which shell arithmetic
  reads as octal: `192.168.180.256` and `192.168.180.010` are accepted
  (`Subnet.OversizedOctetAccepted`, `Subnet.LeadingZeroAccepted`). Exactly the texts it
  accepts that are addresses pass the startup check (`Subnet.AcceptedTextIsAddress`).
- The crash grace of the watchdog counts from `started_at`, the time of the
  reservation; the comment (`orchestrator/services/watchdog.py:14-15`) says since the
  row became `running`. A row can be reaped as crashed the moment it becomes `running`
  exactly if its start took 20 seconds or more
  (`Orchestrators.GraceCountsFromReservation`, `Orchestrators.SlowStartIsReaped`).
- An OAuth name outgrows the 64 characters of its column exactly when every candidate
  that fits is taken, which the users table tells before the search
  (`Usernames.LongNames`); a taken base of 64 characters is such a case
  (`Usernames.LongNameExample`).
- The prefixes `rw` and `ro` of the kernel arguments also drop arguments that are not
  managed, such as `rodata=off`; beyond the managed ones exactly those that begin with
  either are dropped (`BootArgs.DroppedExactly`, `BootArgs.UnmanagedDropped`).
- `_validate_bundle_tar` tests a hard link from the link's directory, and tar takes its
  name from the archive root: an accepted one climbs above the root by at most as many
  levels as the link lies below it, and exactly if its own normal form starts with `..`
  (`Bundle.HardLinkReach`), as `app/a` linked to `../x` does
  (`Bundle.HardLinkLeavesRoot`). The extraction that follows refuses such a link with
  `filter="data"` and only on Python versions without it does not.
- A manifest stored as `./hackbento-bundle.json` is accepted by name and never read,
  unless the plain name belongs to a member that is no file (`Bundle.DottedManifest`).
- `startswith("..")` also refuses names that merely begin with two dots
  (`PosixPath.DotDotTest`).

## Model

| member | source | states |
|---|---|---|
| EnvironmentSafety.StepKeeps | orchestrator/routers/envs.py:158-216 | every step of every actor keeps the invariant: a live VM is held by its start request, or recorded by a live row whose stopper read that vm_id |
| EnvironmentSafety.RunKeeps | orchestrator/services/watchdog.py:18-48 | the invariant holds in every reachable state |
| EnvironmentSafety.NoVmIsLost | orchestrator/routers/envs.py:158-203 | over every interleaving a live VM is held by the request that booted it or named by exactly one row that is not stopped, unless a crash or a failed commit dropped its holder with no row to cover it |
| EnvironmentSafety.LeaksComeFrom | orchestrator/routers/attack_machine.py:187-229 | only a crash with the start in flight, or a failed commit of the Attack Machine route whose row does not cover the VM, drops the holder of a VM |
| EnvironmentSafety.LeaksExactly | orchestrator/routers/envs.py:175-216 | no VM has lost its holder exactly if the run holds no such crash and no such failed commit |
| EnvironmentSafety.QuietVmsAreCovered | orchestrator/services/watchdog.py:18-48 | with no request in flight live VMs inject into rows that are not stopped |
| EnvironmentSafety.QuietVmsAreStoppable | orchestrator/services/watchdog.py:18-48 | and, when commits succeed, into `running` and `stopping` rows |
| EnvironmentSafety.StartingRowsAreInFlight | orchestrator/routers/envs.py:158-203 | when commits succeed, every `starting` row has its start request in flight |
| EnvironmentSafety.RestartSweeps | orchestrator/services/smolvm.py:736-801 | after a restart no row is live, and a surviving VM belonged to a start in flight at the crash or had lost its holder before |
| EnvironmentSafety.FailedCommit | orchestrator/routers/attack_machine.py:208-228 | a commit that fails after boot, in either place: the project route stops its VM; the Attack Machine route leaves it reachable exactly if its row is live, names it and was not claimed before it did, and otherwise loses it |
| EnvironmentSafety.OrphanForever | orchestrator/services/smolvm.py:762-801 | a lost VM is found by no later step, restarts included |
| EnvironmentSafety.DroppedStartLosesVm | orchestrator/routers/attack_machine.py:211-212 | a start whose commit of the vm_id fails ends with a lost VM |
| EnvironmentStatus.RowMoves | orchestrator/services/watchdog.py:18-48 | one step moves a row along starting, running, stopping, stopped only, and never changes its owner, address, start time or a recorded vm_id |
| EnvironmentStatus.RowsOnlyMoveForward | orchestrator/routers/envs.py:169-203 | along any run the status never goes back and `stopped` is final |
| EnvironmentStatus.OneClaimWins | orchestrator/services/watchdog.py:18-40 | of all stop attempts on one row in a run at most one claim commits |
| EnvironmentStatus.ReserveTakesFreeAddress | orchestrator/services/network.py:89-114 | a reservation keeps the addresses of live rows distinct and inside the pool |
| EnvironmentStatus.LiveAddressesDistinct | orchestrator/services/network.py:76-114 | in every reachable state live rows hold distinct pool addresses, so they never outnumber the pool, administrators included |
| EnvironmentStatus.LiveMacsDistinct | orchestrator/services/network.py:217-224 | in every reachable state live rows have distinct MAC addresses |
| EnvironmentStatus.AdmittedKeepsQuotas | orchestrator/routers/attack_machine.py:137-187 | what either route admits keeps the per-user, total and Attack Machine quotas |
| EnvironmentStatus.QuotasHold | orchestrator/routers/envs.py:119-158 | in every reachable state each non-administrator is within the per-user quota with at most one live Attack Machine, and together they are within the total |
| EnvironmentLifetime.LifetimeBound | orchestrator/routers/envs.py:227-269 | with timeouts of at most M minutes, extensions by non-administrators and claims within L of expiry, a finite row runs at most (pool size + 1)(M + L) from the hand-off |
| EnvironmentLifetime.ExtensionBounded | orchestrator/routers/attack_machine.py:232-269 | an extension adds at most one timeout plus the lag and uses up one of the pool-size extensions |
| EnvironmentLifetime.WentLiveIsHandOff | orchestrator/routers/envs.py:193-203 | the clock of the bound starts at the move to `running`, and no other step makes a row `running` |
| EnvironmentEffects.AdmissionAnswers | orchestrator/routers/envs.py:97-160 | who is admitted, and the first reason against everyone else, counted in the rows |
| EnvironmentEffects.ReservationEffect | orchestrator/routers/envs.py:112-156 | every column of the new row, the start request it gets, and that nothing else changes |
| EnvironmentEffects.HandOverEffect | orchestrator/routers/envs.py:189-203 | the row goes `running` with an expiry counted from now exactly if it is `starting`; otherwise it stays and the request aborts |
| EnvironmentEffects.CommitFailsEffect | orchestrator/routers/envs.py:206-216 | after a failed commit the project route is left with its VM to stop, the Attack Machine route with nothing |
| EnvironmentEffects.ClaimEffect | orchestrator/routers/envs.py:282-304 | a stop by an asker who is neither the owner nor an administrator, or of a row that is not `running`, changes nothing; an allowed one makes the row `stopping` and nothing else |
| EnvironmentEffects.OnlyAllowedStops | orchestrator/services/watchdog.py:18-40 | in any state, the only step that makes a row `stopping` is a claim, by its owner or an administrator if it has an asker |
| EnvironmentEffects.StoppingWasAsked | orchestrator/routers/envs.py:282-304 | in every run a `stopping` row was claimed at an earlier step, and if by an asker then by its owner or an administrator while it was `running` |
| EnvironmentEffects.ExtendEffect | orchestrator/routers/attack_machine.py:232-269 | an extension that either route allows sets the expiry to now plus the minutes in seconds and counts one; any other changes nothing |
| EnvironmentEffects.RestartEffect | orchestrator/services/smolvm.py:762-801 | after a restart a VM is alive exactly if it was, its process survived and no row that was not stopped named it |
| EnvironmentEffects.TimedStartRuns | orchestrator/routers/envs.py:112-203 | the run of a start with a timeout of m minutes: the row runs, is finite exactly if m != 0, and then is due 60 m seconds after the hand-off |
| Orchestrators.Orchestrator.ReserveEnv | orchestrator/services/network.py:89-114 | `allocate_ip` with `_reserve` is one reservation step: it returns the first refusal and changes nothing, or the id of a new `starting` row of this user, image and address, which is finite exactly if the timeout in force is m != 0, and then due at now + 60 m |
| Orchestrators.Orchestrator.Admit | orchestrator/routers/envs.py:97-160 | a start is refused for a template it may not see, then for want of an address, then for the first failing check under the lock, each said in the rows; otherwise it gets the first pool address that no live row and no neighbour has |
| Orchestrators.Orchestrator.RecordVm | orchestrator/routers/envs.py:183-184 | the row, whatever has become of it, had no vm_id and now has one that no other row has; the request still holds the VM, and nothing else changes |
| Orchestrators.Orchestrator.HandOver | orchestrator/routers/envs.py:189-203 | the row goes `running` exactly if it is still `starting`, and then its expiry is now plus its minutes; otherwise the request is left with its own VM to stop |
| Orchestrators.Orchestrator.ExtendEnv | orchestrator/routers/envs.py:233-269 | an extension is refused for the first failing check, or sets the expiry to 60 m seconds from now, m being the timeout of the image unless that is absent or 0, and counts one |
| Orchestrators.RefusalMeans | orchestrator/routers/envs.py:233-262 | each refusal of an extension, by what holds of the row and the user, in the order of the checks |
| Orchestrators.Orchestrator.ClaimForStop | orchestrator/services/watchdog.py:18-40 | a claim with an asker succeeds exactly on a `running` row of the asker or for an administrator, one without exactly on a `starting` or `running` row; the row goes `stopping`, and a refused claim changes nothing |
| Orchestrators.Orchestrator.DestroyEnv | orchestrator/services/watchdog.py:43-48 | the row is `stopped` and otherwise as before; the VM read at the claim, its own, is gone, and no VM that another row records is touched |
| Orchestrators.Orchestrator.WatchdogPass | orchestrator/services/watchdog.py:55-123 | a pass with nothing interleaved stops exactly the rows that are running, finite and have now >= expires_at, starting since 300 seconds, or running with a dead VM 20 seconds after their reservation; every other row and its VM is left as it is |
| Orchestrators.Orchestrator.ReapAll | orchestrator/services/watchdog.py:67-98 | the loop over selected ids stops exactly those rows, each once |
| Orchestrators.Orchestrator.ReapCrashed | orchestrator/services/watchdog.py:105-123 | the crash loop stops exactly the selected rows whose VM was dead when it began |
| Orchestrators.PhasesCompose | orchestrator/services/watchdog.py:58-123 | the three phases, each reading the table the one before left, stop together what was due at the start |
| Orchestrators.NothingDueAfter | orchestrator/services/watchdog.py:55-123 | after a pass no row is due, so no finite row still running has expired |
| Orchestrators.PassInColumns | orchestrator/services/watchdog.py:55-123 | the rows and the VMs after a pass, in the columns of each row and with the two delays as numbers |
| Orchestrators.PassSpares | orchestrator/services/watchdog.py:58-110 | a running row with a live VM that is unlimited or not yet due keeps its row and its VM, and so do a `starting` row within 300 seconds and a row with a dead VM within 20 |
| Orchestrators.PassAfterStart | orchestrator/routers/envs.py:112-203 | a pass d seconds after a start with a timeout of m minutes stops it exactly if m != 0 and d >= 60 m |
| Orchestrators.OtherVmUntouched | orchestrator/services/watchdog.py:43-48 | stopping other rows leaves the VM of a row alone, because vm_ids are distinct across rows |
| Orchestrators.GraceCountsFromReservation | orchestrator/services/watchdog.py:100-110 | a row whose VM dies as it becomes `running` is due as crashed exactly if its start took the whole grace |
| Orchestrators.SlowStartIsReaped | orchestrator/services/watchdog.py:100-110 | the run of such a start |
| Orchestrators.ReapEffect | orchestrator/services/watchdog.py:67-74 | claiming and destroying a row stops that row and its VM only, and keeps the invariant |
| Orchestrators.Orchestrator.RestartAndCleanUp | orchestrator/services/smolvm.py:762-801 | startup cleanup stops every live row and the VM it records |
| WorkQueue.QueuesPartition | orchestrator/services/rootfs_convert.py:35-73 | in every reachable state a pending row is claimable by exactly one worker, and a row under conversion is the job of that worker |
| WorkQueue.OneConversionPerWorker | orchestrator/services/bundle_build.py:248-267 | a worker never has two rows in `converting` |
| WorkQueue.ClaimableExactly | orchestrator/services/docker_base_assets.py:117-139 | a pending row can be claimed by the worker of its table and kind and no other, a docker-base build only if it names a base image |
| WorkQueue.RebootRequeues | orchestrator/services/rootfs_convert.py:104-130 | startup turns exactly the `converting` rows back to `pending`; the archive each needs is still named by the row and its worker can claim it; that of an asset is on disk unless a crash came between the halves of a deletion |
| WorkQueue.ArchivesKept | orchestrator/routers/admin.py:459-468 | while no crash loses one, every waiting asset has its archive on disk, but for one whose deletion is under way |
| WorkQueue.LostArchive | orchestrator/routers/admin.py:459-468 | in every run, a crash between the halves of the deletion of a waiting asset leaves it pending with its archive gone |
| WorkQueue.LostArchiveRun | orchestrator/routers/admin.py:459-468 | an upload, its deletion and a crash in between make such a run |
| WorkQueue.RunKeepsQueue | orchestrator/services/docker_base_assets.py:117-152 | the queue invariant holds in every reachable state |
| Workers.Queues.ClaimPending | orchestrator/services/rootfs_convert.py:42-73 | a claim takes one pending row that its worker may take, makes it `converting` and reads its source and path, an image only when no asset waits for that worker; it finds none exactly when there is none |
| Workers.UploadOutcome | orchestrator/routers/admin.py:313-427 | an uploaded image is ready with its file there, an archive waits for the converter and is on disk, a docker-base build waits for its builder; no other row and no file is touched |
| Workers.ImageOutcome | orchestrator/routers/images.py:545-680 | a Compose bundle always waits for the bundle worker, an archive for the converter, and an ext4 image is ready |
| Workers.EditOutcome | orchestrator/routers/images.py:826-900 | a new archive puts a project back in its queue, its old files are gone, and every other row keeps its archive |
| Workers.Queues.FinishConversion | orchestrator/services/rootfs_convert.py:76-101 | the end of a conversion: the row has its result and no archive, the archive read at the claim is gone, every other row keeps its own, and the worker is free |
| Workers.Queues.FinishBundle | orchestrator/services/bundle_build.py:280-301 | likewise for a bundle build, whose image is gone after a failure |
| Workers.Queues.FinishDockerBase | orchestrator/services/docker_base_assets.py:143-152 | the end of a docker-base build touches no file and no other row |
| Workers.Queues.DeleteAsset | orchestrator/routers/admin.py:441-468 | a deletion that is not interrupted is its two steps: row, file and archive are gone |
| Workers.Queues.ResetStuckConversions | orchestrator/services/rootfs_convert.py:116-130 | the loop over the interrupted rows is the restart step of the queues |
| AssetFiles.ReadyAssetsExist | orchestrator/routers/admin.py:353-381 | after every careful run each `ready` asset names an existing file, but for one whose deletion is about to commit |
| AssetFiles.StepKeepsFiles | orchestrator/services/rootfs_convert.py:86-101 | every upload, claim, result, half of a careful deletion and careful restart keeps the file invariant |
| AssetFiles.CarelessStepBreaks | orchestrator/routers/admin.py:453-468 | after a careful run every deletion or crash that is not careful can be continued to a ready asset without file |
| AssetFiles.CrashInDeletion | orchestrator/routers/admin.py:459-468 | a crash between the removal of the file of a ready asset and the commit leaves the row ready without file |
| AssetFiles.CrashedDeletionRun | orchestrator/routers/admin.py:459-468 | an upload, its conversion, its deletion and a crash in between make such a run |
| AssetFiles.ReusedIdBreaks | orchestrator/services/rootfs_convert.py:76-83 | when the id of a row under conversion is assigned again, the new row is reported ready without a file |
| AssetFiles.ReachId | orchestrator/routers/admin.py:362-381 | and it always can be: ids are one above the largest, so deleting later assets and adding new ones brings it back |
| AssetFiles.RegistrationRaceBreaks | orchestrator/services/docker_base_assets.py:87-108 | a file deleted between the check and the commit of its registration leaves a ready row without file |
| AssetFiles.LateDeletionRun | orchestrator/services/docker_base_assets.py:87-108 | two startups and a deletion during the second make such a run |
| Network.FindFree | orchestrator/services/network.py:109-114 | the search loop returns the first pool entry not in use |
| Network.FirstFreeIsLeast | orchestrator/services/network.py:108-114 | the entry returned is the least free one, and there is none exactly when all are used |
| Network.AllocatesLeastAddress | orchestrator/services/network.py:90-114 | the address returned lies in the pool, is free, and every smaller pool address is in use |
| Network.ParseQuadText | orchestrator/services/network.py:223-224 | reading back four printed numbers gives the same numbers |
| Network.PoolDistinct | orchestrator/services/network.py:14-17 | the entries of the pool are pairwise distinct texts |
| Network.MacInjective | orchestrator/services/network.py:217-224 | every address has a MAC and different addresses have different ones |
| Network.MacText | orchestrator/services/network.py:217-224 | the octets stand behind `06:00` in the order of the address, two hexadecimal digits each |
| Network.MacExample | orchestrator/services/network.py:217-224 | 192.168.1.2 as a number, as text, and its MAC 06:00:c0:a8:01:02 |
| Subnet.MaskShape | setup.sh:205-209 | the shell expression yields a run of ones above 32 - prefix zeros, for every prefix |
| Subnet.MaskFloors | setup.sh:203-210 | masking rounds an address down to its aligned block |
| Subnet.MaskTestIsIntervalTest | setup.sh:192-211 | the mask test holds exactly for the addresses of the aligned block (section 3.1 of RFC 4632) |
| Subnet.AcceptedPoolPassesStartupCheck | orchestrator/services/network.py:183-189 | if both ends were accepted, every address of the pool passes the startup check |
| Subnet.AcceptedTextIsAddress | setup.sh:192-211 | a text passes the startup check exactly if setup.sh accepts it and it is an address: octets up to 255 without leading zeros |
| Subnet.PrintedQuads | setup.sh:186-190 | for printed numbers the two sides differ exactly in the range of the octets |
| Subnet.LeadingZeroAccepted | setup.sh:186-211 | an octet `010` is taken for 8 and accepted, and is no address |
| Subnet.BadOctalIsZero | setup.sh:186-211 | an octet that is no octal number makes the whole address count as 0.0.0.0, which is accepted exactly if that lies in the subnet |
| Subnet.OversizedOctetAccepted | setup.sh:198-211 | an octet of 256 is accepted |
| PosixPath.NormShape | orchestrator/services/bundle_build.py:77-79 | a normalised relative path is some `..` and then plain names, and starts with `..` exactly when a prefix of the walk goes below depth zero |
| PosixPath.ClimbsExactly | orchestrator/services/bundle_build.py:83-87 | a walk from any depth climbs above level 0 exactly if its normal form starts with more `..` than that |
| PosixPath.DotDotTest | orchestrator/services/bundle_build.py:77-80 | the text test refuses exactly the walks that climb and the names that begin with two dots |
| PosixPath.SplitNormalised | orchestrator/services/rootfs_tar.py:178-182 | dirname and basename of a normalised path take its last component off |
| PosixPath.NormLaws | orchestrator/services/bundle_build.py:77 | what fixes the normal form: a name is kept, an empty component and `.` do nothing, `..` takes the name before it back, or stays where there is none |
| PosixPath.NormInParts | orchestrator/services/bundle_build.py:77 | normalising the first part of a path beforehand changes nothing |
| PosixPath.SlashesInFront | orchestrator/services/rootfs_tar.py:146-148 | two slashes in front are kept, one and three become one |
| Bundle.CheckMembers | orchestrator/services/bundle_build.py:72-101 | the header loop accepts exactly if every member passes and the sizes add up to at most 12 GiB, reports a bad member exactly if one comes before the sizes are too large, and collects the names; to pass is said in the components of the names |
| Bundle.Validate | orchestrator/services/bundle_build.py:72-124 | the answer to every bundle: the first that applies of a bad member, too large, no manifest, no images, no app, a manifest of another format; otherwise the project name and whether something lies in overlay |
| Bundle.PassesExactly | orchestrator/services/bundle_build.py:75-97 | the tests on the texts accept exactly a relative name that never climbs, no device, a link target that stays below the root, and a name whose components are not those of `overlay/sbin/init` or `overlay/etc/docker/daemon.json` |
| Bundle.AcceptedKeepsStartup | orchestrator/services/bundle_build.py:46-49 | no member of an accepted bundle is a device or walks to either of the two files the guest starts with |
| Bundle.SpellingsRefused | orchestrator/services/bundle_build.py:88-97 | a member at one of the two is refused with any number of `.` and empty components in its name |
| Bundle.SpelledApart | orchestrator/services/bundle_build.py:88-97 | `./overlay//sbin/init` is refused, whatever its kind and size |
| Bundle.CleanedIs | orchestrator/services/bundle_build.py:88 | the cleaned name is a given path exactly if the components of the name are those of the path, the first perhaps with a dot in front |
| Bundle.TargetTest | orchestrator/services/bundle_build.py:83-87 | a link target passes exactly if it is relative, never climbs above the bundle root when walked from the link's directory, and leads to no name that begins with two dots |
| Bundle.AcceptedStaysInside | orchestrator/services/bundle_build.py:72-101 | no prefix of any accepted name or link target climbs above the root, and the sizes are bounded |
| Bundle.HardLinkReach | orchestrator/services/bundle_build.py:83-87 | from the archive root an accepted hard link climbs by at most the depth of its directory, and at all exactly if its normal form starts with `..` |
| Bundle.HardLinkLeavesRoot | orchestrator/services/bundle_build.py:83-87 | `app/a` linked to `../x` is accepted and climbs |
| Bundle.DottedManifest | orchestrator/services/bundle_build.py:114-123 | what a manifest behind `./` declares matters exactly if the plain name belongs to a member that is no file |
| TarResolve.WalkParts | orchestrator/services/rootfs_tar.py:134-152 | the loop over the components computes the recursive walk |
| TarResolve.WithinIsPrefix | orchestrator/services/rootfs_tar.py:147-148 | the text test with the separator is the prefix test on components; for the root it takes the root alone and texts with two slashes |
| TarResolve.RealWalks | orchestrator/services/rootfs_tar.py:136-151 | the walk passes only real paths at or below the destination exactly when the links it follows lead somewhere |
| TarResolve.WalkStaysWithin | orchestrator/services/rootfs_tar.py:124-152 | then the result is its own real path and lies at or below the destination (section 4.13 of POSIX.1-2017) |
| TarResolve.WalkWithoutLinks | orchestrator/services/rootfs_tar.py:134-152 | where no link is on the way the walk goes straight down |
| TarResolve.WalkLands | orchestrator/services/rootfs_tar.py:124-152 | on any tree the text of the result lies at or below the destination, and it is a real path unless nothing is there |
| TarResolve.AbsentTargetIsNotReal | orchestrator/services/rootfs_tar.py:146 | a link to an absent target behind another link gives a result that names an entry outside the destination |
| TarResolve.LinkIsFollowed | orchestrator/services/rootfs_tar.py:140-149 | a link without `..` in its target that POSIX resolution leads to r at or below the destination is walked to r |
| TarResolve.WalkAsKernel | orchestrator/services/rootfs_tar.py:134-152 | over whole walks: where all such links are of this kind the walk ends where POSIX resolution of the parts from the destination ends |
| TarResolve.WalkFindsRealPath | orchestrator/services/rootfs_tar.py:134-152 | so it finds the real path of the destination with the parts below it |
| TarConfinement.MakeDirsLands | orchestrator/services/rootfs_tar.py:187 | `makedirs` on any path makes directories exactly where the longest existing part of it really is, or fails and makes none |
| TarConfinement.EntryLands | orchestrator/services/rootfs_tar.py:171-218 | an entry changes only its name at the place its parent leads to and new directories on the way there, and on success is there: link, hard link to a file inside, directory, or file with its contents |
| TarConfinement.EntrySucceeds | orchestrator/services/rootfs_tar.py:171-218 | an entry is refused exactly for its name, its kind, a link that leads outside, a blocked way, or because it does not fit what is there already |
| TarConfinement.EntryConfined | orchestrator/services/rootfs_tar.py:171-218 | an entry changes nothing outside the destination exactly if the place its parent leads to is not a new one outside |
| TarConfinement.LeadingLinksStay | orchestrator/services/rootfs_tar.py:136-152 | an entry whose walked links all lead somewhere does not stray |
| TarExtract.MakeDirsSucceeds | orchestrator/services/rootfs_tar.py:187 | making the directories of a real path succeeds exactly if nothing but directories is in the way |
| TarExtract.ExtractionInOrder | orchestrator/services/rootfs_tar.py:170-218 | the entries are unpacked in their order, each on what the ones before it left |
| TarExtract.StopsAtError | orchestrator/services/rootfs_tar.py:170-218 | the first entry that fails ends the run, what it left stays, and no later entry is looked at |
| TarConfinement.SourceStaysWithin | orchestrator/services/rootfs_tar.py:192-199 | a hard link is made to a file at or below the destination, on any tree |
| TarConfinement.ExtractionConfined | orchestrator/services/rootfs_tar.py:170-218 | over the whole loop, ended or aborted, nothing outside the destination appears, disappears or changes, and no file that existed has new contents, exactly if no entry reached strays |
| TarConfinement.SafeExtractConfined | orchestrator/services/rootfs_tar.py:155-218 | the same for the whole call, which may first make the destination |
| TarArchives.OrdinaryArchivesAreConfined | orchestrator/services/rootfs_tar.py:155-218 | an archive with no member, and no hard-link name, below a member that is a link is confined when the destination holds no links |
| TarArchives.GoesToItsName | orchestrator/services/rootfs_tar.py:178-182 | in such an archive each entry goes to the place its name says |
| TarArchives.ParentIsRealPath | orchestrator/services/rootfs_tar.py:178-182 | on any such tree an existing parent of an entry is resolved to its real path, links included |
| TarArchives.SourceIsRealPath | orchestrator/services/rootfs_tar.py:192-199 | and so is the file a hard link names |
| TarArchives.LibraryExtracted | orchestrator/services/rootfs_tar.py:155-218 | a directory `usr/lib`, a link `lib` to it and a file `lib/f` put the file at `usr/lib/f` |
| TarArchives.ConfinementFails | orchestrator/services/rootfs_tar.py:146-218 | three members whose extraction succeeds and leaves a file outside the destination |
| TarExtract.Disk.SafeExtract | orchestrator/services/rootfs_tar.py:155-218 | the method leaves the disk as the specified extraction does, errors included |
| FileTree.SolidRealPath | orchestrator/services/rootfs_tar.py:146 | a path without links resolves to itself if it exists and otherwise to nothing |
| FileTree.ResolveIsReal | orchestrator/services/rootfs_tar.py:146 | resolution ends at something that exists and is no link |
| BootArgs.SanitizeExtra | orchestrator/services/smolvm.py:449-463 | the loop returns the unmanaged tokens joined by single spaces |
| BootArgs.TokensJoin | orchestrator/services/smolvm.py:458-463 | splitting undoes joining, for tokens without white space |
| BootArgs.TokensKeepText | orchestrator/services/smolvm.py:458 | splitting any text loses nothing but white space |
| BootArgs.TokensAround | orchestrator/services/smolvm.py:458 | splitting around any white space splits both sides apart |
| BootArgs.SpacesListed | orchestrator/services/smolvm.py:458 | white space is exactly the code points that Python counts as such, tab and line ends among them |
| BootArgs.KeepCounts | orchestrator/services/smolvm.py:458-462 | every unmanaged token survives as often as it was given, and no managed one does |
| BootArgs.KeepAdds | orchestrator/services/smolvm.py:458-462 | each token is judged for itself, and the kept ones stay in their order |
| BootArgs.SanitizeIsIdempotent | orchestrator/services/smolvm.py:449-463 | cleaning twice is cleaning once |
| BootArgs.DroppedExactly | orchestrator/services/smolvm.py:446-460 | dropped are the arguments named as managed and, beyond these, exactly those that begin with `rw` or `ro` |
| BootArgs.UnmanagedDropped | orchestrator/services/smolvm.py:452-460 | `rodata=off` is dropped without being managed |
| BootArgs.BootLineTokens | orchestrator/services/smolvm.py:527-537 | splitting the final line gives the six managed tokens, written out, and then the kept ones in order |
| BootArgs.ManagedTokensPrevail | orchestrator/services/smolvm.py:446-463 | exactly one token starts with `ip=`, none with `init=` or `root=`, and no managed prefix occurs behind the managed part |
| Compose.ValidateCompose | orchestrator/services/bundle_build.py:192-243 | the server accepts exactly a configuration without errors and otherwise reports that of the first bad network or, without one, of the first bad service; the summary lists services and ports |
| Compose.ErrorsJudged | orchestrator/services/bundle_build.py:201-230 | the first error, in the fields of the configuration: a forbidden driver, an external network, a fixed IPv4 or IPv6 address, no image, an image not loaded |
| Compose.SummaryAt | orchestrator/services/bundle_build.py:231-242 | the summary names each service in its place, with its image and ports |
| Compose.TagBehindSlash | orchestrator/services/bundle_build.py:225-228 | of a reference with a registry only what stands behind the last slash can be a tag, unless there is a digest |
| Compose.RegistryWithPort | orchestrator/services/bundle_build.py:225-228 | `registry:5000/web` is completed with `:latest`, and a tagged one is left alone |
| Compose.CollectErrors | orchestrator/static/tools/bento-pack:72-88 | the packer reports every error, in order |
| Compose.ServerAgreesWithPacker | orchestrator/services/bundle_build.py:205-230 | the server accepts exactly when the packer finds no error and, if anything was loaded, every tagged image was |
| Compose.TaggedHasTag | orchestrator/services/bundle_build.py:228 | a completed reference has a tag or digest, and completing it again changes nothing |
| Compose.SortedSetIncreasing | orchestrator/services/bundle_build.py:241 | the published ports are strictly increasing in the sort key, hence without duplicates |
| Compose.IncreasingUnique | orchestrator/services/bundle_build.py:241 | order and contents determine the list |
| Compose.LessIsNumeric | orchestrator/services/bundle_build.py:241 | for printed numbers the key (length, text) is the numeric order |
| Compose.PublishedPortsExact | orchestrator/services/bundle_build.py:231-241 | the published ports are exactly the ports of the services |
| Compose.PublishedPortsIncrease | orchestrator/services/bundle_build.py:241 | and printed numbers among them increase numerically |
| Usernames.UniqueLdapName | orchestrator/services/auth_ldap.py:56-65 | the loop ends after at most as many taken probes as there are users, with the first free candidate |
| Usernames.OauthName | orchestrator/services/auth_oauth.py:32-43 | likewise; the name is also valid, not empty and not reserved, and too long for its column exactly if no fitting one was free |
| Usernames.ProbesBounded | orchestrator/services/auth_ldap.py:58-65 | n taken candidates need n users, because candidates never repeat |
| Usernames.CandidateTexts | orchestrator/services/auth_ldap.py:56-65 | LDAP candidates count from 2 with nothing between, OAuth candidates from 1 behind a dash |
| Usernames.SanitizeIsProjection | orchestrator/services/auth_oauth.py:11-14 | a cleaned name is valid, trimmed, not empty and of at most 64 characters, and exactly such names are left alone |
| Usernames.SanitizedText | orchestrator/services/auth_oauth.py:11-14 | character by character: the name is what lies between the dashes at both ends of the first 64 characters, everything outside the alphabet a dash, or `user` |
| Usernames.AlphabetExact | orchestrator/services/auth_oauth.py:11-14 | the characters a name may have, listed |
| Usernames.OauthBaseText | orchestrator/services/auth_oauth.py:32-35 | the base is what stands before the first `@`, cleaned, with `-u` behind a reserved word |
| Usernames.AdminBase | orchestrator/services/auth_oauth.py:32-35 | `admin@x` becomes `admin-u` |
| Usernames.ReservedExact | orchestrator/reserved.py:3-18 | exactly the sixteen words are reserved, in any mix of small and capital letters |
| Usernames.SafeEndNotReserved | orchestrator/reserved.py:3-17 | no reserved word, in any case, ends in a digit or in `-u` |
| Usernames.LongNames | orchestrator/services/auth_oauth.py:32-43 | the name found has more than 64 characters exactly if, before the search, every candidate that fits was taken |
| Usernames.LongNameExample | orchestrator/services/auth_oauth.py:36-43 | a taken name of 64 characters leaves none that fits, and gets one of 66 |

## Left out

- Firecracker, cgroups, nftables, TAP devices, docker, debugfs and mkfs: a VM comes up with a fresh id or leaves nothing, and stopping it succeeds.
- ORM caching, lock timeouts and the busy handler of SQLite: transactions are atomic and re-reads fresh. The only failing commits are those of a start request after its boot.
- Changes of settings, roles or the Attack Machine template's visibility during a run, and the deletion of users with their rows.
- Visibility and edit permission checks, and the refusal of a start while the image is being converted; only the hiding of the private Attack Machine template is modelled, since the quota needs it.
- Address uniqueness on the wire between an unrecorded VM and a later reservation; it is proved of rows.
- Claim and destroy as one transaction: the model lets other steps come between them, which includes the atomic case.
- RebootRequeues: that the archive of a waiting `Image` row is on disk is not promised. `update_image` removes the old archive before its commit and may still be refused after that (`orchestrator/routers/images.py:840-970`), so an edit is one step here, edits of an image under conversion are no step, and files are followed for assets only. `build_phase` and error texts are not modelled either.
- The references from images that guard the deletion of an asset: deletion is always possible in the model. What holds in every run holds with fewer deletions too; the runs that break `ready` delete assets that no image refers to.
- Finishing a conversion and removing its archive are one step; the row names the archive no more when it is removed.
- An edit of a project that brings an ext4 image in place of an archive: the edit of the model always brings an archive or a bundle.
- Archive format, tar headers, JSON and the size of the bundle file: members and configurations are given parsed. What `extractfile` does with the two names of the manifest is given too.
- File modes, ownership, disk space and the sizes of ext4 images; the device and FIFO kinds are one kind.
- The overflow of 64-bit shell numbers in octets of many digits; the network of `ip_in_subnet` is given as a number.
- Lower-casing outside ASCII in the reserved-word test; the OAuth names it is applied to here are ASCII.
- Templates, web pages, tokens, the remote-desktop proxy, the LDAP and OAuth clients and the build scripts of guest images: no algorithm to prove.
