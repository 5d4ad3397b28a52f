# Talos machined sequencer tasks: the decision procedures

Talos's `machined` runs node-lifecycle sequences (boot, install, upgrade,
reset, reboot, shutdown) as phases of named tasks. Most of each task is a
system call or a client call. Beneath that plumbing sit small, deterministic
decisions: which installer run and which platform event, whether the node
leaves etcd, in which order pods are stopped, which mount-table lines are
unmounted, where a user file is written, how udev rules are escaped, which
reboot(2) command is issued, and how the user-disk installer manifest is
built. This project models those decisions and proves what they promise.

Every task is modelled over an explicit "world": the facts it observes, given
as values or as oracle functions (the file system's `stat`, `read`, `write`,
a mount table's lines, the etcd service list, kernel parameters, the result
of each client call). A task returns an `Outcome`: its error, if any, and the
ordered trace of effects it performed (events fired, unmounts, sandbox
removals, installer runs, files written, bind mounts, kexec loads).

Modules, one per group of tasks:

- `Common` (common.dfy): options, results, errors, effects, events, the
  reboot commands and their codes, and the sequence data.
- `Strings` (strings.dfy): the Go string and path helpers the tasks use,
  over `seq<char>`: `strings.Fields`, `HasPrefix`, `ReplaceAll`,
  `TrimLeft`, `Split(...)[0]`, `TrimSpace`, ASCII `ToLower`, and
  `filepath.Dir` and `filepath.Join` on clean paths.
- `ErrorPolicy` (decorators.dfy): `pauseOnFailure`, `taskErrorHandler`,
  `phaseListErrorHandler`, `logError`, over an abstract task `(name, run)`.
- `InstallTasks` (install.dfy): `Install` and `Upgrade`.
- `Teardown` (teardown.dfy): `CordonAndDrainNode`, `LeaveEtcd`,
  `stopAndRemoveAllPods`.
- `MountFilters` (mounts.dfy): `UnmountPodMounts` and
  `UnmountSystemDiskBindMounts`, as one scanner loop over a line filter.
- `UserFiles` (userfiles.dfy): `WriteUserFiles` and `existsAndIsFile`.
- `UdevRules` (udev.dfy): `WriteUdevRules`.
- `Power` (power.dfy): `Reboot`, `Shutdown`, `KexecPrepare`.
- `Derivations` (derivations.dfy): the service selection of
  `StartAllServices`, the option choice of `MountStatePartition`, and the
  version and ID of `OSRelease`.
- `UserDisks` (disks.dfy): `partitionAndFormatDisks`, `mountDisks`,
  `unmountDisks`.

Loops of the source are methods with loop invariants, each proved equal to
a specification function; the properties are lemmas about those functions.
`KexecPrepare` updates a `MachineState` object in place, and
`phaseListErrorHandler` rewrites the phases' task arrays in place.

Two details of the code shape what is proved:

- the comment before the first sandbox removal of `stopAndRemoveAllPods`
  (v1alpha1_sequencer_tasks.go:1439-1441) speaks of POD-mode pods, but the
  call at line 1443 filters both `NamespaceMode_POD` and
  `NamespaceMode_CONTAINER`; the model filters both;
- a udev rule that ends in a backslash turns its own terminating newline
  into a line continuation, so the rules file has one line terminator per
  rule only when no rule ends in a backslash.

All source paths below are relative to the repository root. The single
source file is
`internal/app/machined/pkg/runtime/v1alpha1/v1alpha1_sequencer_tasks.go`.

## Model

| member | source | states |
|---|---|---|
| ErrorPolicy.PauseOnFailureAsWritten | internal/app/machined/pkg/runtime/v1alpha1/v1alpha1_sequencer_tasks.go:2044-2067 | pauseOnFailure as written: the name is kept; success passes through unchanged; on failure the trace gains the announcement with the given timeout and a wait of the fixed 5-minute timer, and the task's own error is returned |
| ErrorPolicy.PauseAnnouncementMismatch | internal/app/machined/pkg/runtime/v1alpha1/v1alpha1_sequencer_tasks.go:2053-2061 | with any timeout other than 5 minutes, the wait announced and the wait performed differ |
| ErrorPolicy.PauseOnFailure | internal/app/machined/pkg/runtime/v1alpha1/v1alpha1_sequencer_tasks.go:2044-2067 | corrected pauseOnFailure: the name is kept; success passes through unchanged; on failure it announces and waits the same timeout and returns the task's own error |
| ErrorPolicy.PauseMatchesAnnouncement | internal/app/machined/pkg/runtime/v1alpha1/v1alpha1_sequencer_tasks.go:2044-2067 | the corrected decorator never changes the error, waits exactly when the task fails, and waits as long as it announced |
| ErrorPolicy.TaskErrorHandler | internal/app/machined/pkg/runtime/v1alpha1/v1alpha1_sequencer_tasks.go:2069-2082 | the wrapped task keeps its name; success gives no error and the task's trace; an error is replaced by what the handler returns, and the handler's effects follow the task's |
| ErrorPolicy.LogError | internal/app/machined/pkg/runtime/v1alpha1/v1alpha1_sequencer_tasks.go:2094-2098 | logError always succeeds and only logs the error as a warning |
| ErrorPolicy.LoggedTaskNeverFails | internal/app/machined/pkg/runtime/v1alpha1/v1alpha1_sequencer_tasks.go:2069-2098 | a task wrapped with logError never fails; its trace is its own, plus one warning exactly when it failed |
| ErrorPolicy.PhaseListErrorHandler | internal/app/machined/pkg/runtime/v1alpha1/v1alpha1_sequencer_tasks.go:2084-2092 | the same phases come back, so their number and task counts are unchanged; every task of every phase is replaced in place by its taskErrorHandler wrapping |
| InstallTasks.FreshInstallImage | internal/app/machined/pkg/runtime/v1alpha1/v1alpha1_sequencer_tasks.go:1830-1833 | a fresh install uses the configured installer image, or the default image when none is configured |
| InstallTasks.Install | internal/app/machined/pkg/runtime/v1alpha1/v1alpha1_sequencer_tasks.go:1822-1921 | "not installed" wins over "staged"; installed and not staged is an error with no effect; a disk-lookup error is returned unchanged and a staged-options decode error wrapped, both before the installer; otherwise the installer runs once with the branch's disk, image and options, then one event fires; an installer failure fires one Failure and its error is returned; Installed fires exactly on a fresh success and Upgraded on a staged success; Activate never fires |
| InstallTasks.Upgrade | internal/app/machined/pkg/runtime/v1alpha1/v1alpha1_sequencer_tasks.go:1561-1590 | anything but upgrade-request data is refused with no effect; a request runs the installer once on the system disk with the requested image, fires no event, and returns the installer's error |
| Teardown.CordonAndDrainNode | internal/app/machined/pkg/runtime/v1alpha1/v1alpha1_sequencer_tasks.go:1251-1278 | a missing kubelet certificate skips with success; any other stat error, the node-name error and the client error are each returned unchanged with no effect; the drain runs exactly when the node name and the client are available, runs once on that node, and its error is returned |
| Teardown.ShouldLeaveEtcd | internal/app/machined/pkg/runtime/v1alpha1/v1alpha1_sequencer_tasks.go:1330-1348 | the scan's flag is set exactly when the first service with etcd's id is Running, Stopping or Failed |
| Teardown.FirstWithIdAt | internal/app/machined/pkg/runtime/v1alpha1/v1alpha1_sequencer_tasks.go:1332-1348 | the scan's stopping index is the first service with etcd's id, or none when no service has that id |
| Teardown.LeaveEtcd | internal/app/machined/pkg/runtime/v1alpha1/v1alpha1_sequencer_tasks.go:1315-1370 | no member directory, or etcd never active, succeeds with no leave; a stat error fails; otherwise a client is made, and the node leaves the cluster exactly when the client was made; a client or leave failure is returned wrapped |
| Teardown.StopAndRemoveAllPods | internal/app/machined/pkg/runtime/v1alpha1/v1alpha1_sequencer_tasks.go:1409-1452 | the task succeeds exactly when the kubelet stop, the CRI client and both removals succeed |
| Teardown.WaitsNeverDecideError | internal/app/machined/pkg/runtime/v1alpha1/v1alpha1_sequencer_tasks.go:1411-1422 | whatever the finalizer wait and the inhibit-lock wait return, the task returns the same error |
| Teardown.ErrorOfLastStep | internal/app/machined/pkg/runtime/v1alpha1/v1alpha1_sequencer_tasks.go:1424-1450 | the task ends at its first failing fatal step: the last effect is the kubelet stop, the CRI client or one of the two removals, and a failure returned is that step's own error; ending with the remove-all call, the task returns that call's result |
| Teardown.KubeletStoppedAfterWaits | internal/app/machined/pkg/runtime/v1alpha1/v1alpha1_sequencer_tasks.go:1411-1426 | kubelet is always stopped, after the finalizer wait and the inhibit-lock wait, and before the CRI client or any sandbox removal |
| Teardown.WarningsOnlyFromWaits | internal/app/machined/pkg/runtime/v1alpha1/v1alpha1_sequencer_tasks.go:1411-1422 | the only warnings are the errors of the two waits, each logged rather than returned |
| Teardown.SandboxRemovalGating | internal/app/machined/pkg/runtime/v1alpha1/v1alpha1_sequencer_tasks.go:1424-1450 | a kubelet stop error aborts before any client or removal; the POD/CONTAINER removal happens exactly when kubelet stopped and the client was made; the remove-all call happens exactly when, in addition, the first removal succeeded |
| Teardown.SandboxRemovalOrder | internal/app/machined/pkg/runtime/v1alpha1/v1alpha1_sequencer_tasks.go:1443-1450 | the remove-all call, when made, is last and right after the POD/CONTAINER removal, and no other removal precedes them |
| MountFilters.ScanAttempts | internal/app/machined/pkg/runtime/v1alpha1/v1alpha1_sequencer_tasks.go:1184-1203 | the unmounts attempted are the selected mount points in table order, up to and including the first one whose unmount fails other than with EINVAL |
| MountFilters.ScanError | internal/app/machined/pkg/runtime/v1alpha1/v1alpha1_sequencer_tasks.go:1195-1201 | the scan succeeds exactly when every selected unmount succeeds or fails with EINVAL; otherwise the first other error is returned, wrapped with its mount point |
| MountFilters.ScanUnmountsTargetsInOrder | internal/app/machined/pkg/runtime/v1alpha1/v1alpha1_sequencer_tasks.go:1222-1243 | the unmounts are a prefix of the selected mount points in order; all of them on success; on failure the last one is the one that failed, with its wrapped error, and all before it were tolerated |
| MountFilters.ShortLinesSkipped | internal/app/machined/pkg/runtime/v1alpha1/v1alpha1_sequencer_tasks.go:1185-1189 | a line with fewer than two fields changes neither the unmounts nor the result |
| MountFilters.PodMountSelection | internal/app/machined/pkg/runtime/v1alpha1/v1alpha1_sequencer_tasks.go:1191-1192 | a mount line is selected exactly when its mount point starts with "/var/"; "/var" itself never is |
| MountFilters.SystemDiskSelection | internal/app/machined/pkg/runtime/v1alpha1/v1alpha1_sequencer_tasks.go:1229-1232 | a device-mapper line is selected exactly when its device, rewritten from "/dev/mapper" to "/dev", extends the disk's name strictly; the disk itself is excluded |
| MountFilters.UnmountMatching | internal/app/machined/pkg/runtime/v1alpha1/v1alpha1_sequencer_tasks.go:1184-1203 | the scanner loop performs the scan: same unmounts, same order, same result |
| MountFilters.UnmountPodMounts | internal/app/machined/pkg/runtime/v1alpha1/v1alpha1_sequencer_tasks.go:1173-1207 | a mount-table read failure is returned with no effect; otherwise the pod-mount scan |
| MountFilters.UnmountSystemDiskBindMounts | internal/app/machined/pkg/runtime/v1alpha1/v1alpha1_sequencer_tasks.go:1210-1247 | a mount-table open failure is returned with no effect; otherwise the system-disk scan |
| Strings.MountLineFields | internal/app/machined/pkg/runtime/v1alpha1/v1alpha1_sequencer_tasks.go:1185-1192 | a line "device mountpoint rest" splits into fields whose first two are the device and the mount point |
| Strings.DeviceMapperRewrite | internal/app/machined/pkg/runtime/v1alpha1/v1alpha1_sequencer_tasks.go:1229 | replacing "/dev/mapper" by "/dev" turns "/dev/mapper<name>" into "/dev<name>" |
| UserFiles.ExistsAndIsFile | internal/app/machined/pkg/runtime/v1alpha1/v1alpha1_sequencer_tasks.go:1132-1149 | no error exactly for an existing regular file; a missing file, a stat error and a non-regular file each give their own error |
| UserFiles.RejectedFiles | internal/app/machined/pkg/runtime/v1alpha1/v1alpha1_sequencer_tasks.go:1021-1051 | an unknown operation, and an overwrite or append of anything but an existing regular file, record an error and touch nothing |
| UserFiles.AppendContent | internal/app/machined/pkg/runtime/v1alpha1/v1alpha1_sequencer_tasks.go:1030-1046 | what an append writes is the existing content, a newline, then the new content |
| UserFiles.PlacedContent | internal/app/machined/pkg/runtime/v1alpha1/v1alpha1_sequencer_tasks.go:1053-1105 | every write of a file carries its content |
| UserFiles.ManifestsInPlace | internal/app/machined/pkg/runtime/v1alpha1/v1alpha1_sequencer_tasks.go:1053-1067 | a file in the manifests directory is only written and chmod-ed, in place, with its permissions; nothing is made or mounted, and it never aborts |
| UserFiles.RedirectedIntoVar | internal/app/machined/pkg/runtime/v1alpha1/v1alpha1_sequencer_tasks.go:1069-1111 | a path outside /var is written under /var; a create of it aborts; a written one ends with its read-only bind mount over the original path |
| UserFiles.InVarNotMounted | internal/app/machined/pkg/runtime/v1alpha1/v1alpha1_sequencer_tasks.go:1071-1081 | a path inside /var is written where it is, is never bind-mounted, and never aborts |
| Strings.FirstComponentIs | internal/app/machined/pkg/runtime/v1alpha1/v1alpha1_sequencer_tasks.go:1073-1078 | a path's first component is c exactly when, leading slashes removed, the path is c or starts with c and a slash |
| UserFiles.WriteUserFilesResult | internal/app/machined/pkg/runtime/v1alpha1/v1alpha1_sequencer_tasks.go:1011-1114 | the task succeeds exactly when every file was written; without an abort every file is handled and the error gathers the failures in order; the first abort ends the task with its own error |
| UserFiles.WriteOne | internal/app/machined/pkg/runtime/v1alpha1/v1alpha1_sequencer_tasks.go:1019-1111 | the loop body's steps for one file are that file's placement |
| UserFiles.WriteUserFiles | internal/app/machined/pkg/runtime/v1alpha1/v1alpha1_sequencer_tasks.go:1009-1116 | the loop over the files, with continue and early return, computes the whole task's outcome |
| UdevRules.UnescapeEscape | internal/app/machined/pkg/runtime/v1alpha1/v1alpha1_sequencer_tasks.go:702 | escaping a rule loses nothing: unescaping gives the rule back |
| UdevRules.ContentTerminators | internal/app/machined/pkg/runtime/v1alpha1/v1alpha1_sequencer_tasks.go:701-704 | the content has one unescaped line terminator per rule that does not end in a backslash, so one per rule when none does |
| UdevRules.BuildUdevRules | internal/app/machined/pkg/runtime/v1alpha1/v1alpha1_sequencer_tasks.go:699-704 | the builder loop produces each rule with its newlines escaped, followed by a newline, in order |
| UdevRules.WriteUdevRules | internal/app/machined/pkg/runtime/v1alpha1/v1alpha1_sequencer_tasks.go:695-712 | the content is written once to the rules file with mode 0644; a write failure is returned wrapped |
| Power.RebootCommand | internal/app/machined/pkg/runtime/v1alpha1/v1alpha1_sequencer_tasks.go:1647-1670 | Reboot returns KEXEC exactly when kexec was prepared and RESTART otherwise, publishes the code of that same command and of no other, then fires Rebooted |
| Power.RebootTask | internal/app/machined/pkg/runtime/v1alpha1/v1alpha1_sequencer_tasks.go:1647-1670 | the task on the machine state computes Reboot of its kexec flag |
| Power.First | internal/app/machined/pkg/runtime/v1alpha1/v1alpha1_sequencer_tasks.go:1677 | a parameter's first value, absent for a missing parameter or one without values |
| Power.ShutdownCommand | internal/app/machined/pkg/runtime/v1alpha1/v1alpha1_sequencer_tasks.go:1673-1689 | Shutdown returns HALT exactly when the shutdown parameter's first value is "halt", POWER_OFF otherwise (a later "halt" does not count), and publishes the code of that same command and of no other, and nothing else |
| Power.KexecPreparedOnlyOnLoad | internal/app/machined/pkg/runtime/v1alpha1/v1alpha1_sequencer_tasks.go:1937-2009 | kexec is marked prepared exactly when the load is reached and succeeds; the load is attempted at most once, with the default entry's images under /boot and its trimmed command line |
| Power.KexecFallbacks | internal/app/machined/pkg/runtime/v1alpha1/v1alpha1_sequencer_tasks.go:1939-2003 | a power-cycle request, no configuration, no GRUB configuration, a missing default entry, and ENOSYS, EPERM or EBUSY from the load all succeed without preparing kexec |
| Power.KexecErrors | internal/app/machined/pkg/runtime/v1alpha1/v1alpha1_sequencer_tasks.go:1937-2009 | the task fails exactly on a GRUB read error, an image that does not open, or another load error; only the load error is wrapped |
| Power.RebootAfterKexecPrepare | internal/app/machined/pkg/runtime/v1alpha1/v1alpha1_sequencer_tasks.go:1937-2009 | the reboot after preparing executes KEXEC exactly when the load succeeded |
| Power.KexecPrepare | internal/app/machined/pkg/runtime/v1alpha1/v1alpha1_sequencer_tasks.go:1937-2009 | the machine's flag is set on a successful load and otherwise left as it was |
| Derivations.ServiceSelection | internal/app/machined/pkg/runtime/v1alpha1/v1alpha1_sequencer_tasks.go:751-772 | Activate fires first; kubelet is loaded, never started; the runtime starts first; trustd and etcd start exactly on control-plane nodes, etcd bootstraps exactly on the init node; an unknown type panics |
| Derivations.StateMountFlags | internal/app/machined/pkg/runtime/v1alpha1/v1alpha1_sequencer_tasks.go:1763-1767 | the mount is always skipped when already mounted, and skipped on a missing file system exactly in the Initialize sequence |
| Derivations.StateEncryptionPriority | internal/app/machined/pkg/runtime/v1alpha1/v1alpha1_sequencer_tasks.go:1756-1796 | a META open failure fails first; the configuration's encryption wins and the META tag is then not used; without it the META tag is used, and a tag that does not decode fails |
| Derivations.OSReleaseDerivation | internal/app/machined/pkg/runtime/v1alpha1/v1alpha1_sequencer_tasks.go:398-413 | the version is the SHA when the tag is "none" and the tag otherwise; the ID is the name lower-cased letter by letter, with no upper-case letter left |
| UserDisks.PartitionAndFormatContents | internal/app/machined/pkg/runtime/v1alpha1/v1alpha1_sequencer_tasks.go:893-959 | the installer runs exactly when every disk could be probed, and its error is returned; otherwise the first failing disk's error; the manifest resets exactly the disks without partitions, targets their partitions in order, each forced XFS with the Linux file-system type |
| UserDisks.FillDevices | internal/app/machined/pkg/runtime/v1alpha1/v1alpha1_sequencer_tasks.go:933-938 | the devices of the manifest are those it had plus exactly the set-up disks, each reset without the overlay-mounts check |
| UserDisks.FillTargets | internal/app/machined/pkg/runtime/v1alpha1/v1alpha1_sequencer_tasks.go:940-951 | per device, the targets are the ones it had followed by the set-up disks' partitions in order |
| UserDisks.SkippedDisk | internal/app/machined/pkg/runtime/v1alpha1/v1alpha1_sequencer_tasks.go:925-931 | a disk that already has partitions adds neither a device nor a target |
| UserDisks.FillFails | internal/app/machined/pkg/runtime/v1alpha1/v1alpha1_sequencer_tasks.go:903-918 | the manifest loop fails exactly when some disk cannot be opened or its table read, with the first such disk's error |
| UserDisks.FirstFailureAt | internal/app/machined/pkg/runtime/v1alpha1/v1alpha1_sequencer_tasks.go:903-918 | that first failure exists exactly when some disk fails, and it is the error of the earliest failing disk |
| UserDisks.TargetsForFormat | internal/app/machined/pkg/runtime/v1alpha1/v1alpha1_sequencer_tasks.go:940-948 | every target is on its own disk, forced, with the Linux file-system partition type and XFS |
| UserDisks.PartitionAndFormatDisks | internal/app/machined/pkg/runtime/v1alpha1/v1alpha1_sequencer_tasks.go:893-959 | the loop filling the two maps, then Execute, computes the task's result |
| UserDisks.AppendTargets | internal/app/machined/pkg/runtime/v1alpha1/v1alpha1_sequencer_tasks.go:940-951 | the inner loop appends one target per partition of the disk to that disk's entry |
| UserDisks.PartitionsNumberedFromOne | internal/app/machined/pkg/runtime/v1alpha1/v1alpha1_sequencer_tasks.go:966-969 | partitions are numbered from 1 within each disk, in configuration order, on that disk |
| UserDisks.CollectedPoints | internal/app/machined/pkg/runtime/v1alpha1/v1alpha1_sequencer_tasks.go:962-1006 | the loop gets through exactly when every partition has a name and, for mountDisks, every missing mount point could be made; then every name is a key and every key maps to the mount point of a partition of that name; only mountDisks makes directories, and only missing ones |
| UserDisks.UniqueNameMapsToItsMountpoint | internal/app/machined/pkg/runtime/v1alpha1/v1alpha1_sequencer_tasks.go:981 | a partition whose name is not shared maps to its own mount point |
| UserDisks.CollectDisk | internal/app/machined/pkg/runtime/v1alpha1/v1alpha1_sequencer_tasks.go:966-982 | the inner loop over one disk's partitions continues the collection |
| UserDisks.CollectPoints | internal/app/machined/pkg/runtime/v1alpha1/v1alpha1_sequencer_tasks.go:965-982 | the nested loops compute the collection of all partitions' mount points |
| UserDisks.MountDisks | internal/app/machined/pkg/runtime/v1alpha1/v1alpha1_sequencer_tasks.go:962-985 | the task's outcome and the points it mounts are those of the collection with directories made |
| UserDisks.UnmountDisks | internal/app/machined/pkg/runtime/v1alpha1/v1alpha1_sequencer_tasks.go:987-1006 | the task's outcome and the points it unmounts are those of the collection without directories |
| UserDisks.UnmountMakesNoDirectories | internal/app/machined/pkg/runtime/v1alpha1/v1alpha1_sequencer_tasks.go:987-1006 | unmountDisks performs no effect of its own before the unmount |

## Left out

- File-system I/O, system calls and clients (stat, read, write, chmod, mkdir, mount, unmount, etcd, Kubernetes, CRI, the installer container, kexec_file_load) are oracle inputs; a task's own writes are recorded in its trace and are not fed back into later observations.
- Mount tables are given as lines already read; the scanner's token limit and `scanner.Err()` are not modelled.
- `filepath.Join` and `filepath.Dir` are modelled for clean paths only; `filepath.Clean` of "." and ".." components is not modelled.
- `Strings.ToLower` lower-cases ASCII letters only, not all of Unicode.
- `ErrorPolicy.PhaseListErrorHandler` requires the phases' task arrays to be distinct; phases sharing one task slice, which would be wrapped twice, are not modelled.
- Timing is left out: the length of a wait is recorded as an effect, and context cancellation, the retry loops and the 15-second service-wait ticker of `StartAllServices` are not modelled.
- Template rendering and JSON encoding (the os-release file, install options, encryption configuration) are opaque successes or failures; `OSRelease`'s file write and bind mount are not modelled.
- `UserDisks.MountDisks` and `UserDisks.UnmountDisks`: `m.Execute`, `mount.Mount` and `mount.Unmount` are opaque; the mount points' file-system type "xfs", the MS_NOATIME flag and the 0o700 mode of `os.MkdirAll` are not recorded.
- `UserDisks.CollectPoints`: `mount.Points` is modelled as a map from partition name to mount point; the map's iteration order is not modelled.
- Closing the block device and the log lines for skipped disks are not modelled.
- The wrapping tasks `MountUserDisks` and `UnmountUserDisks` are not modelled apart from the functions they call.
- Constants taken from Talos's constants and partition packages (the manifests directory, the udev rules path, the ephemeral mount point "/var", "/boot", "talos.shutdown", the Linux file-system GUID) are written out with Talos's values; those packages are not part of this model.
- `Teardown.StopAndRemoveAllPods`: the first removal filters the POD and the CONTAINER network modes, as the code does, not only pod-level sandboxes.
- UdevRules.ContentTerminators: one unescaped line terminator per rule is stated only for rules that do not end in a backslash, because for such a rule the escaped newline merges with the next line.
- The other tasks of the file (cgroups, rlimits, capabilities, IMA, configuration loading and saving, the partition mount tasks other than the state partition's option choice, bootloader updates) are outside the modelled core.

## Findings

| source | as written | input that shows it | evidently intended | confidence | as-written member | corrected member |
|---|---|---|---|---|---|---|
| internal/app/machined/pkg/runtime/v1alpha1/v1alpha1_sequencer_tasks.go:2044-2067 | pauseOnFailure announces a reboot after `timeout` but always waits a fixed 5-minute timer | a failing task wrapped with a timeout of 10 minutes: "10 minutes" is announced, 5 are waited | wait the timeout that is announced | not executed | ErrorPolicy.PauseOnFailureAsWritten, ErrorPolicy.PauseAnnouncementMismatch | ErrorPolicy.PauseOnFailure, ErrorPolicy.PauseMatchesAnnouncement |
