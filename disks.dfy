/** The user-disk tasks: partitionAndFormatDisks builds the installer
    manifest for the configured disks that have no partitions yet;
    mountDisks and unmountDisks name each configured partition by its
    disk and 1-based number and collect the mount points. */
module UserDisks {
  import opened Common

  /** partition.LinuxFilesystemData. */
  const LinuxFilesystemData: string := "0FC63DAF-8483-4772-8E79-3D69D8477DE4"

  /** partition.FilesystemTypeXFS. */
  const FilesystemTypeXFS: string := "xfs"

  /** A configured partition of a user disk. */
  datatype Partition = Partition(size: nat, mountpoint: string)

  /** A configured user disk. */
  datatype Disk = Disk(device: string, partitions: seq<Partition>)

  /** What opening a disk and reading its partition table gives. */
  datatype Probe =
    | OpenFailed(err: Error)         // blockdevice.Open failed
    | TableFailed(err: Error)        // PartitionTable failed, other than ErrMissingPartitionTable
    | NoPartitionTable               // ErrMissingPartitionTable
    | PartitionTable(items: nat)     // a table with this many partitions

  /** installer.Device. */
  datatype InstallDevice = InstallDevice(device: string, resetPartitionTable: bool, skipOverlayMountsCheck: bool)

  /** installer.Target with its format options. */
  datatype Target = Target(device: string, size: nat, force: bool, partitionType: string, fileSystemType: string)

  /** installer.Manifest: the devices to reset and the targets per device. */
  datatype Manifest = Manifest(devices: map<string, InstallDevice>, targets: map<string, seq<Target>>)

  /** The entry of a slice-valued map, nil (empty) when absent. */
  function Get<K, V>(m: map<K, seq<V>>, k: K): seq<V>
  {
    if k in m then m[k] else []
  }

  /** Whether a disk is set up (Ok(true)), skipped because it already has
      partitions (Ok(false)), or fails the task. */
  function SetUp(p: Probe): Result<bool, Error>
  {
    match p
    case OpenFailed(e) => Err(e)
    case TableFailed(e) => Err(e)
    case NoPartitionTable => Ok(true)
    case PartitionTable(n) => Ok(n == 0)
  }

  /** The target of one partition of a disk. */
  function TargetOf(device: string, p: Partition): Target
  {
    Target(device, p.size, true, LinuxFilesystemData, FilesystemTypeXFS)
  }

  /** The targets of a disk, one per partition, in order. */
  function TargetsOf(d: Disk): (ts: seq<Target>)
    ensures |ts| == |d.partitions|
  {
    seq(|d.partitions|, i requires 0 <= i < |d.partitions| => TargetOf(d.device, d.partitions[i]))
  }

  /** The manifest with a disk added: its device (re)set, its targets
      appended; a disk without partitions adds no targets entry. */
  function AddDisk(m: Manifest, d: Disk): Manifest
  {
    Manifest(m.devices[d.device := InstallDevice(d.device, true, true)],
             if d.partitions == [] then m.targets else m.targets[d.device := Get(m.targets, d.device) + TargetsOf(d)])
  }

  /** The manifest-building loop, from the manifest m. */
  function Fill(m: Manifest, disks: seq<Disk>, probe: string -> Probe): Result<Manifest, Error>
    decreases |disks|
  {
    if disks == [] then Ok(m)
    else
      match SetUp(probe(disks[0].device))
      case Err(e) => Err(e)
      case Ok(setUp) => Fill(if setUp then AddDisk(m, disks[0]) else m, disks[1..], probe)
  }

  /** partitionAndFormatDisks: the manifest Execute ran on, None when a
      disk failed first, and the error returned. */
  datatype FormatResult = FormatResult(executed: Option<Manifest>, err: Option<Error>)

  function PartitionAndFormat(disks: seq<Disk>, probe: string -> Probe, executeErr: Option<Error>): FormatResult
  {
    match Fill(Manifest(map[], map[]), disks, probe)
    case Err(e) => FormatResult(None, Some(e))
    case Ok(m) => FormatResult(Some(m), executeErr)
  }

  /** The targets the set-up disks of a device contribute, in disk order. */
  function TargetsFor(disks: seq<Disk>, probe: string -> Probe, device: string): seq<Target>
  {
    if disks == [] then []
    else (if disks[0].device == device && SetUp(probe(device)) == Ok(true) then TargetsOf(disks[0]) else [])
         + TargetsFor(disks[1..], probe, device)
  }

  /** A disk is set up: its probe allows it. */
  predicate Chosen(disks: seq<Disk>, probe: string -> Probe, device: string)
  {
    exists k :: 0 <= k < |disks| && disks[k].device == device && SetUp(probe(device)) == Ok(true)
  }

  lemma ChosenCons(disks: seq<Disk>, probe: string -> Probe, device: string)
    requires disks != []
    ensures Chosen(disks, probe, device) <==>
      (disks[0].device == device && SetUp(probe(device)) == Ok(true)) || Chosen(disks[1..], probe, device)
  {
    if Chosen(disks, probe, device) {
      var k :| 0 <= k < |disks| && disks[k].device == device && SetUp(probe(device)) == Ok(true);
      if k > 0 { assert disks[1..][k - 1] == disks[k]; }
    }
    if Chosen(disks[1..], probe, device) {
      var k :| 0 <= k < |disks[1..]| && disks[1..][k].device == device && SetUp(probe(device)) == Ok(true);
      assert disks[k + 1] == disks[1..][k];
    }
  }

  /** A manifest built by the loop holds the devices it already had plus
      exactly the set-up disks' devices, each reset and without the
      overlay-mounts check. */
  lemma {:induction false} FillDevices(m: Manifest, disks: seq<Disk>, probe: string -> Probe, device: string)
    requires Fill(m, disks, probe).Ok?
    ensures var r := Fill(m, disks, probe).value;
      && (device in r.devices <==> device in m.devices || Chosen(disks, probe, device))
      && (device in r.devices ==>
            r.devices[device] == if Chosen(disks, probe, device) then InstallDevice(device, true, true) else m.devices[device])
    decreases |disks|
  {
    if disks != [] {
      var d := disks[0];
      var ok := SetUp(probe(d.device)).value;
      var m' := if ok then AddDisk(m, d) else m;
      assert Fill(m, disks, probe) == Fill(m', disks[1..], probe);
      FillDevices(m', disks[1..], probe, device);
      ChosenCons(disks, probe, device);
    }
  }

  /** A manifest built by the loop holds, per device, the targets it had
      followed by the set-up disks' partitions in order; a device gets a
      targets entry only from a set-up disk with partitions. */
  lemma {:induction false} FillTargets(m: Manifest, disks: seq<Disk>, probe: string -> Probe, device: string)
    requires Fill(m, disks, probe).Ok?
    ensures var r := Fill(m, disks, probe).value;
      && Get(r.targets, device) == Get(m.targets, device) + TargetsFor(disks, probe, device)
      && (device in r.targets <==> device in m.targets || TargetsFor(disks, probe, device) != [])
    decreases |disks|
  {
    if disks != [] {
      var d := disks[0];
      var ok := SetUp(probe(d.device)).value;
      var m' := if ok then AddDisk(m, d) else m;
      FillStep(m, disks, probe);
      FillTargets(m', disks[1..], probe, device);
      var own := if ok && d.device == device then TargetsOf(d) else [];
      assert TargetsFor(disks, probe, device) == own + TargetsFor(disks[1..], probe, device);
      AddDiskTargets(m, d, device, ok);
      ConcatAssoc(Get(m.targets, device), own, TargetsFor(disks[1..], probe, device));
    }
  }

  /** One disk of the loop, when it can be probed. */
  lemma FillStep(m: Manifest, disks: seq<Disk>, probe: string -> Probe)
    requires disks != [] && SetUp(probe(disks[0].device)).Ok?
    ensures var ok := SetUp(probe(disks[0].device)).value;
      Fill(m, disks, probe) == Fill(if ok then AddDisk(m, disks[0]) else m, disks[1..], probe)
  {
  }

  /** The targets of a device after one disk, set up or not. */
  lemma AddDiskTargets(m: Manifest, d: Disk, device: string, ok: bool)
    ensures var m' := if ok then AddDisk(m, d) else m;
      var own := if ok && d.device == device then TargetsOf(d) else [];
      && Get(m'.targets, device) == Get(m.targets, device) + own
      && (device in m'.targets <==> device in m.targets || own != [])
  {
    if !(ok && d.device == device) {
      assert Get(m.targets, device) + [] == Get(m.targets, device);
    }
  }

  /** A disk that already has partitions is left alone: it adds neither a
      device nor a target. */
  lemma SkippedDisk(m: Manifest, d: Disk, probe: string -> Probe, n: nat)
    requires probe(d.device) == PartitionTable(n) && n > 0
    ensures Fill(m, [d], probe) == Ok(m)
  {
  }

  /** The loop fails exactly when some disk cannot be probed, and then
      with the error of the first such disk. */
  lemma {:induction false} FillFails(m: Manifest, disks: seq<Disk>, probe: string -> Probe)
    ensures Fill(m, disks, probe).Err? <==> FirstFailure(disks, probe).Some?
    ensures Fill(m, disks, probe).Err? ==> Fill(m, disks, probe).error == FirstFailure(disks, probe).value
    decreases |disks|
  {
    if disks != [] && SetUp(probe(disks[0].device)).Ok? {
      var ok := SetUp(probe(disks[0].device)).value;
      FillStep(m, disks, probe);
      FillFails(if ok then AddDisk(m, disks[0]) else m, disks[1..], probe);
    }
  }

  /** The error of the first disk that cannot be probed, if any. */
  function FirstFailure(disks: seq<Disk>, probe: string -> Probe): Option<Error>
  {
    if disks == [] then None
    else if SetUp(probe(disks[0].device)).Err? then Some(SetUp(probe(disks[0].device)).error)
    else FirstFailure(disks[1..], probe)
  }

  /** There is a failure exactly when some disk cannot be probed, and it is
      that of the first such disk. */
  lemma {:induction false} FirstFailureAt(disks: seq<Disk>, probe: string -> Probe)
    ensures FirstFailure(disks, probe).Some? <==> exists k :: 0 <= k < |disks| && SetUp(probe(disks[k].device)).Err?
    ensures FirstFailure(disks, probe).Some? ==>
      exists k :: 0 <= k < |disks| && SetUp(probe(disks[k].device)) == Err(FirstFailure(disks, probe).value)
        && forall j :: 0 <= j < k ==> SetUp(probe(disks[j].device)).Ok?
  {
    if disks != [] && SetUp(probe(disks[0].device)).Ok? {
      var tail := disks[1..];
      FirstFailureAt(tail, probe);
      if exists k :: 0 <= k < |disks| && SetUp(probe(disks[k].device)).Err? {
        var k :| 0 <= k < |disks| && SetUp(probe(disks[k].device)).Err?;
        assert tail[k - 1] == disks[k];
      }
      if FirstFailure(tail, probe).Some? {
        var k :| 0 <= k < |tail| && SetUp(probe(tail[k].device)) == Err(FirstFailure(tail, probe).value)
          && forall j :: 0 <= j < k ==> SetUp(probe(tail[j].device)).Ok?;
        assert disks[k + 1] == tail[k];
        forall j | 0 <= j < k + 1 ensures SetUp(probe(disks[j].device)).Ok? {
          if j > 0 { assert disks[j] == tail[j - 1]; }
        }
      }
    }
  }

  /** Every target formats its whole partition as XFS with the Linux
      file system partition type, forced, on the disk it belongs to. */
  lemma {:induction false} TargetsForFormat(disks: seq<Disk>, probe: string -> Probe, device: string)
    ensures forall t :: t in TargetsFor(disks, probe, device) ==>
      t.device == device && t.force && t.partitionType == LinuxFilesystemData && t.fileSystemType == FilesystemTypeXFS
  {
    if disks != [] {
      TargetsForFormat(disks[1..], probe, device);
      var d := disks[0];
      assert forall i :: 0 <= i < |TargetsOf(d)| ==> TargetsOf(d)[i] == TargetOf(d.device, d.partitions[i]);
    }
  }

  /** partitionAndFormatDisks runs the installer exactly when every disk
      could be probed, and returns the installer's result then and the
      first disk's error otherwise; the manifest resets exactly the disks
      without partitions and targets their partitions in order. */
  lemma PartitionAndFormatContents(disks: seq<Disk>, probe: string -> Probe, executeErr: Option<Error>, device: string)
    ensures var r := PartitionAndFormat(disks, probe, executeErr);
      && (r.executed.Some? <==> forall k :: 0 <= k < |disks| ==> SetUp(probe(disks[k].device)).Ok?)
      && (r.executed.Some? ==> r.err == executeErr)
      && (r.executed.None? ==>
            r.err.Some? && exists k :: 0 <= k < |disks| && SetUp(probe(disks[k].device)) == Err(r.err.value)
                                       && forall j :: 0 <= j < k ==> SetUp(probe(disks[j].device)).Ok?)
      && (r.executed.Some? ==>
            && (device in r.executed.value.devices <==> Chosen(disks, probe, device))
            && (device in r.executed.value.devices ==> r.executed.value.devices[device] == InstallDevice(device, true, true))
            && Get(r.executed.value.targets, device) == TargetsFor(disks, probe, device)
            && (forall t :: t in Get(r.executed.value.targets, device) ==>
                  t.device == device && t.force && t.partitionType == LinuxFilesystemData && t.fileSystemType == FilesystemTypeXFS))
  {
    var m := Manifest(map[], map[]);
    FillFails(m, disks, probe);
    FirstFailureAt(disks, probe);
    if Fill(m, disks, probe).Ok? {
      FillDevices(m, disks, probe, device);
      FillTargets(m, disks, probe, device);
      TargetsForFormat(disks, probe, device);
      assert [] + TargetsFor(disks, probe, device) == TargetsFor(disks, probe, device);
    }
  }

  /** partitionAndFormatDisks as a loop filling the manifest's two maps. */
  method PartitionAndFormatDisks(disks: seq<Disk>, probe: string -> Probe, executeErr: Option<Error>) returns (r: FormatResult)
    ensures r == PartitionAndFormat(disks, probe, executeErr)
  {
    var devices: map<string, InstallDevice> := map[];
    var targets: map<string, seq<Target>> := map[];
    var k := 0;
    while k < |disks|
      invariant 0 <= k <= |disks|
      invariant Fill(Manifest(map[], map[]), disks, probe) == Fill(Manifest(devices, targets), disks[k..], probe)
    {
      assert disks[k..][1..] == disks[k + 1..];
      var disk := disks[k];
      var setUp := SetUp(probe(disk.device));
      if setUp.Err? {
        return FormatResult(None, Some(setUp.error));
      }
      FillStep(Manifest(devices, targets), disks[k..], probe);
      if setUp.value {
        devices := devices[disk.device := InstallDevice(disk.device, true, true)];
        targets := AppendTargets(targets, disk);
      }
      k := k + 1;
    }
    assert disks[k..] == [];
    return FormatResult(Some(Manifest(devices, targets)), executeErr);
  }

  /** The inner loop: one target appended per partition of the disk. */
  method AppendTargets(targets0: map<string, seq<Target>>, disk: Disk) returns (targets: map<string, seq<Target>>)
    ensures targets == AddDisk(Manifest(map[], targets0), disk).targets
  {
    targets := targets0;
    var i := 0;
    while i < |disk.partitions|
      invariant 0 <= i <= |disk.partitions|
      invariant i == 0 ==> targets == targets0
      invariant i > 0 ==> targets == targets0[disk.device := Get(targets0, disk.device) + TargetsOf(disk)[..i]]
    {
      var t := TargetOf(disk.device, disk.partitions[i]);
      assert Get(targets, disk.device) == Get(targets0, disk.device) + TargetsOf(disk)[..i] by {
        if i == 0 { assert TargetsOf(disk)[..i] == []; }
      }
      assert TargetsOf(disk)[..i + 1] == TargetsOf(disk)[..i] + [t];
      ConcatAssoc(Get(targets0, disk.device), TargetsOf(disk)[..i], [t]);
      targets := targets[disk.device := Get(targets, disk.device) + [t]];
      i := i + 1;
    }
    assert TargetsOf(disk)[..i] == TargetsOf(disk);
  }

  /** A partition reference: its disk, its 1-based number, its mount point. */
  datatype PartRef = PartRef(device: string, number: nat, mountpoint: string)

  /** The references of a disk's partitions from index i on. */
  function DiskRefs(d: Disk, i: nat): (rs: seq<PartRef>)
    requires i <= |d.partitions|
    ensures |rs| == |d.partitions| - i
    decreases |d.partitions| - i
  {
    if i == |d.partitions| then [] else [PartRef(d.device, i + 1, d.partitions[i].mountpoint)] + DiskRefs(d, i + 1)
  }

  /** The references of all disks' partitions, disk by disk. */
  function Refs(disks: seq<Disk>): seq<PartRef>
  {
    if disks == [] then [] else DiskRefs(disks[0], 0) + Refs(disks[1..])
  }

  lemma {:induction false} DiskRefsAt(d: Disk, i: nat)
    requires i <= |d.partitions|
    ensures forall j :: 0 <= j < |d.partitions| - i ==>
      DiskRefs(d, i)[j] == PartRef(d.device, i + j + 1, d.partitions[i + j].mountpoint)
    decreases |d.partitions| - i
  {
    if i < |d.partitions| {
      DiskRefsAt(d, i + 1);
      forall j | 0 <= j < |d.partitions| - i
        ensures DiskRefs(d, i)[j] == PartRef(d.device, i + j + 1, d.partitions[i + j].mountpoint)
      {
        if j > 0 { assert DiskRefs(d, i)[j] == DiskRefs(d, i + 1)[j - 1]; }
      }
    }
  }

  /** Partitions are numbered from 1 within each disk, in configuration order. */
  lemma PartitionsNumberedFromOne(d: Disk)
    ensures |DiskRefs(d, 0)| == |d.partitions|
    ensures forall i :: 0 <= i < |d.partitions| ==>
      DiskRefs(d, 0)[i].number == i + 1 && DiskRefs(d, 0)[i].device == d.device
      && DiskRefs(d, 0)[i].mountpoint == d.partitions[i].mountpoint
  {
    DiskRefsAt(d, 0);
  }

  /** The calls mountDisks and unmountDisks make, as oracles. */
  datatype DiskOps = DiskOps(
    partPath: (string, nat) -> Result<string, Error>, // util.PartPath
    stat: string -> Stat,                              // os.Stat
    mkdirAll: string -> Option<Error>)                 // os.MkdirAll

  /** The mount points collected (partition name to mount point), what was
      done, and the error that stopped the loop. */
  datatype Collected = Collected(trace: seq<Effect>, points: map<string, string>, err: Option<Error>)

  /** The collecting loop, from the points m; makeDirs: mountDisks, which
      makes a missing mount point first. */
  function Collect(refs: seq<PartRef>, ops: DiskOps, makeDirs: bool, m: map<string, string>): Collected
  {
    if refs == [] then Collected([], m, None)
    else
      var r := refs[0];
      match ops.partPath(r.device, r.number)
      case Err(e) => Collected([], m, Some(e))
      case Ok(name) =>
        if makeDirs && ops.stat(r.mountpoint).NotExist? then
          match ops.mkdirAll(r.mountpoint)
          case Some(e) => Collected([MkdirAll(r.mountpoint)], m, Some(e))
          case None =>
            var rest := Collect(refs[1..], ops, makeDirs, m[name := r.mountpoint]);
            Collected([MkdirAll(r.mountpoint)] + rest.trace, rest.points, rest.err)
        else Collect(refs[1..], ops, makeDirs, m[name := r.mountpoint])
  }

  /** A reference's step succeeds. */
  predicate StepOk(r: PartRef, ops: DiskOps, makeDirs: bool)
  {
    ops.partPath(r.device, r.number).Ok?
    && (makeDirs && ops.stat(r.mountpoint).NotExist? ==> ops.mkdirAll(r.mountpoint).None?)
  }

  lemma AllStepsOkCons(refs: seq<PartRef>, ops: DiskOps, makeDirs: bool)
    requires refs != []
    ensures (forall k :: 0 <= k < |refs| ==> StepOk(refs[k], ops, makeDirs)) <==>
      StepOk(refs[0], ops, makeDirs) && (forall k :: 0 <= k < |refs[1..]| ==> StepOk(refs[1..][k], ops, makeDirs))
  {
    if StepOk(refs[0], ops, makeDirs) && (forall k :: 0 <= k < |refs[1..]| ==> StepOk(refs[1..][k], ops, makeDirs)) {
      forall k | 0 <= k < |refs| ensures StepOk(refs[k], ops, makeDirs) {
        if k > 0 { assert refs[k] == refs[1..][k - 1]; }
      }
    }
  }

  /** The loop succeeds exactly when every partition has a name and, for
      mountDisks, every missing mount point could be made. */
  lemma {:induction false} CollectSucceeds(refs: seq<PartRef>, ops: DiskOps, makeDirs: bool, m: map<string, string>)
    ensures Collect(refs, ops, makeDirs, m).err.None? <==> forall k :: 0 <= k < |refs| ==> StepOk(refs[k], ops, makeDirs)
  {
    if refs != [] {
      AllStepsOkCons(refs, ops, makeDirs);
      var pp := ops.partPath(refs[0].device, refs[0].number);
      if pp.Ok? {
        CollectStep(refs, ops, makeDirs, m, pp.value);
        CollectSucceeds(refs[1..], ops, makeDirs, m[pp.value := refs[0].mountpoint]);
      }
    }
  }

  /** The loop only adds points: the ones it started from stay keys. */
  lemma {:induction false} CollectKeeps(refs: seq<PartRef>, ops: DiskOps, makeDirs: bool, m: map<string, string>)
    ensures forall name :: name in m ==> name in Collect(refs, ops, makeDirs, m).points
  {
    if refs != [] {
      var pp := ops.partPath(refs[0].device, refs[0].number);
      if pp.Ok? {
        CollectStep(refs, ops, makeDirs, m, pp.value);
        CollectKeeps(refs[1..], ops, makeDirs, m[pp.value := refs[0].mountpoint]);
      }
    }
  }

  /** After a successful loop every partition's name is a key. */
  lemma {:induction false} CollectKeys(refs: seq<PartRef>, ops: DiskOps, makeDirs: bool, m: map<string, string>)
    requires Collect(refs, ops, makeDirs, m).err.None?
    ensures forall k :: 0 <= k < |refs| ==>
      ops.partPath(refs[k].device, refs[k].number).Ok?
      && ops.partPath(refs[k].device, refs[k].number).value in Collect(refs, ops, makeDirs, m).points
  {
    if refs != [] {
      var pp := ops.partPath(refs[0].device, refs[0].number);
      var m' := m[pp.value := refs[0].mountpoint];
      CollectStep(refs, ops, makeDirs, m, pp.value);
      CollectKeys(refs[1..], ops, makeDirs, m');
      CollectKeeps(refs[1..], ops, makeDirs, m');
      forall k | 0 <= k < |refs|
        ensures ops.partPath(refs[k].device, refs[k].number).Ok?
                && ops.partPath(refs[k].device, refs[k].number).value in Collect(refs, ops, makeDirs, m).points
      {
        if k > 0 { assert refs[k] == refs[1..][k - 1]; }
      }
    }
  }

  /** After a successful loop every key is a starting point or the name of
      a partition, and maps to the mount point of a partition of that name. */
  lemma {:induction false} CollectValues(refs: seq<PartRef>, ops: DiskOps, makeDirs: bool, m: map<string, string>)
    requires Collect(refs, ops, makeDirs, m).err.None?
    ensures var c := Collect(refs, ops, makeDirs, m);
      forall name :: name in c.points ==>
        (name in m && c.points[name] == m[name])
        || exists k :: 0 <= k < |refs| && ops.partPath(refs[k].device, refs[k].number) == Ok(name)
                       && c.points[name] == refs[k].mountpoint
  {
    if refs != [] {
      var pp := ops.partPath(refs[0].device, refs[0].number);
      var m' := m[pp.value := refs[0].mountpoint];
      CollectStep(refs, ops, makeDirs, m, pp.value);
      CollectValues(refs[1..], ops, makeDirs, m');
      var c := Collect(refs, ops, makeDirs, m);
      var rest := Collect(refs[1..], ops, makeDirs, m');
      assert c.points == rest.points;
      forall name | name in c.points
        ensures (name in m && c.points[name] == m[name])
                || exists k :: 0 <= k < |refs| && ops.partPath(refs[k].device, refs[k].number) == Ok(name)
                               && c.points[name] == refs[k].mountpoint
      {
        if name in m' && rest.points[name] == m'[name] {
          if name == pp.value {
            assert ops.partPath(refs[0].device, refs[0].number) == Ok(name);
          }
        } else {
          var k :| 0 <= k < |refs[1..]| && ops.partPath(refs[1..][k].device, refs[1..][k].number) == Ok(name)
                   && rest.points[name] == refs[1..][k].mountpoint;
          assert refs[k + 1] == refs[1..][k];
        }
      }
    }
  }

  /** Directories are made only by mountDisks, for mount points that do
      not exist. */
  lemma {:induction false} CollectMkdirs(refs: seq<PartRef>, ops: DiskOps, makeDirs: bool, m: map<string, string>)
    ensures forall p :: MkdirAll(p) in Collect(refs, ops, makeDirs, m).trace ==>
      makeDirs && exists k :: 0 <= k < |refs| && refs[k].mountpoint == p && ops.stat(p).NotExist?
  {
    if refs != [] {
      var pp := ops.partPath(refs[0].device, refs[0].number);
      if pp.Ok? {
        var m' := m[pp.value := refs[0].mountpoint];
        CollectStep(refs, ops, makeDirs, m, pp.value);
        CollectMkdirs(refs[1..], ops, makeDirs, m');
        var rest := Collect(refs[1..], ops, makeDirs, m');
        forall p | MkdirAll(p) in Collect(refs, ops, makeDirs, m).trace
          ensures makeDirs && exists k :: 0 <= k < |refs| && refs[k].mountpoint == p && ops.stat(p).NotExist?
        {
          if MkdirAll(p) in rest.trace {
            var k :| 0 <= k < |refs[1..]| && refs[1..][k].mountpoint == p && ops.stat(p).NotExist?;
            assert refs[k + 1] == refs[1..][k];
          } else {
            assert refs[0].mountpoint == p;
          }
        }
      }
    }
  }

  /** Only a partition whose name is not shared maps exactly to its own mount point. */
  lemma UniqueNameMapsToItsMountpoint(refs: seq<PartRef>, ops: DiskOps, makeDirs: bool, k: nat)
    requires k < |refs|
    requires Collect(refs, ops, makeDirs, map[]).err.None?
    requires forall j :: 0 <= j < |refs| && j != k ==>
      ops.partPath(refs[j].device, refs[j].number) != ops.partPath(refs[k].device, refs[k].number)
    ensures ops.partPath(refs[k].device, refs[k].number).Ok?
    ensures var name := ops.partPath(refs[k].device, refs[k].number).value;
      var c := Collect(refs, ops, makeDirs, map[]);
      name in c.points && c.points[name] == refs[k].mountpoint
  {
    CollectKeys(refs, ops, makeDirs, map[]);
    CollectValues(refs, ops, makeDirs, map[]);
  }

  /** The points of both tasks: the loop gets through exactly when every
      partition has a name and, for mountDisks, every missing mount point
      could be made; then every partition's name is a key, and every key is
      the name of a partition and maps to the mount point of a partition of
      that name. Only mountDisks makes directories, and only missing ones. */
  lemma CollectedPoints(disks: seq<Disk>, ops: DiskOps, makeDirs: bool)
    ensures var refs := Refs(disks);
      var c := Collect(refs, ops, makeDirs, map[]);
      && (c.err.None? <==> forall k :: 0 <= k < |refs| ==> StepOk(refs[k], ops, makeDirs))
      && (c.err.None? ==>
            && (forall k :: 0 <= k < |refs| ==> ops.partPath(refs[k].device, refs[k].number).Ok?
                                                && ops.partPath(refs[k].device, refs[k].number).value in c.points)
            && (forall name :: name in c.points ==>
                  exists k :: 0 <= k < |refs| && ops.partPath(refs[k].device, refs[k].number) == Ok(name)
                              && c.points[name] == refs[k].mountpoint))
      && (forall p :: MkdirAll(p) in c.trace ==>
            makeDirs && exists k :: 0 <= k < |refs| && refs[k].mountpoint == p && ops.stat(p).NotExist?)
  {
    var refs := Refs(disks);
    CollectSucceeds(refs, ops, makeDirs, map[]);
    CollectMkdirs(refs, ops, makeDirs, map[]);
    if Collect(refs, ops, makeDirs, map[]).err.None? {
      CollectKeys(refs, ops, makeDirs, map[]);
      CollectValues(refs, ops, makeDirs, map[]);
    }
  }

  /** mountDisks: collect the points, making missing mount points, then
      mount them all; the first failure is returned. */
  function MountDisksSpec(disks: seq<Disk>, ops: DiskOps, mountErr: Option<Error>): (Outcome, Option<map<string, string>>)
  {
    var c := Collect(Refs(disks), ops, true, map[]);
    if c.err.Some? then (Outcome(c.err, c.trace), None) else (Outcome(mountErr, c.trace), Some(c.points))
  }

  /** unmountDisks: collect the points, then unmount them all. */
  function UnmountDisksSpec(disks: seq<Disk>, ops: DiskOps, unmountErr: Option<Error>): (Outcome, Option<map<string, string>>)
  {
    var c := Collect(Refs(disks), ops, false, map[]);
    if c.err.Some? then (Outcome(c.err, c.trace), None) else (Outcome(unmountErr, c.trace), Some(c.points))
  }

  /** Joins what the loop did so far to what the rest of it does. */
  function After(trace: seq<Effect>, c: Collected): Collected
  {
    Collected(trace + c.trace, c.points, c.err)
  }

  lemma RefsStep(disks: seq<Disk>, k: nat)
    requires k < |disks|
    ensures Refs(disks[k..]) == DiskRefs(disks[k], 0) + Refs(disks[k + 1..])
  {
    assert disks[k..][1..] == disks[k + 1..];
  }

  lemma DiskRefsStep(d: Disk, i: nat, tail: seq<PartRef>)
    requires i < |d.partitions|
    ensures var refs := DiskRefs(d, i) + tail;
      refs != [] && refs[0] == PartRef(d.device, i + 1, d.partitions[i].mountpoint)
      && refs[1..] == DiskRefs(d, i + 1) + tail
  {
  }

  /** One partition's step of the collecting loop. */
  lemma CollectStep(refs: seq<PartRef>, ops: DiskOps, makeDirs: bool, m: map<string, string>, name: string)
    requires refs != [] && ops.partPath(refs[0].device, refs[0].number) == Ok(name)
    ensures var mp := refs[0].mountpoint;
      var rest := Collect(refs[1..], ops, makeDirs, m[name := mp]);
      Collect(refs, ops, makeDirs, m) ==
        if makeDirs && ops.stat(mp).NotExist? then
          if ops.mkdirAll(mp).Some? then Collected([MkdirAll(mp)], m, ops.mkdirAll(mp))
          else After([MkdirAll(mp)], rest)
        else rest
  {
  }

  /** A partition step that does not fail moves its effect into the trace. */
  lemma CollectAdvance(refs: seq<PartRef>, ops: DiskOps, makeDirs: bool, m: map<string, string>,
                       trace: seq<Effect>, name: string)
    requires refs != [] && ops.partPath(refs[0].device, refs[0].number) == Ok(name)
    requires makeDirs && ops.stat(refs[0].mountpoint).NotExist? ==> ops.mkdirAll(refs[0].mountpoint).None?
    ensures var mp := refs[0].mountpoint;
      var made := if makeDirs && ops.stat(mp).NotExist? then [MkdirAll(mp)] else [];
      After(trace, Collect(refs, ops, makeDirs, m)) == After(trace + made, Collect(refs[1..], ops, makeDirs, m[name := mp]))
  {
    var mp := refs[0].mountpoint;
    var rest := Collect(refs[1..], ops, makeDirs, m[name := mp]);
    CollectStep(refs, ops, makeDirs, m, name);
    if makeDirs && ops.stat(mp).NotExist? {
      ConcatAssoc(trace, [MkdirAll(mp)], rest.trace);
    } else {
      assert trace + [] == trace;
    }
  }

  /** A partition step that fails ends the loop with its error. */
  lemma CollectStop(refs: seq<PartRef>, ops: DiskOps, makeDirs: bool, m: map<string, string>, trace: seq<Effect>)
    requires refs != [] && !StepOk(refs[0], ops, makeDirs)
    ensures var r := refs[0];
      var pp := ops.partPath(r.device, r.number);
      After(trace, Collect(refs, ops, makeDirs, m)) ==
        if pp.Err? then Collected(trace, m, Some(pp.error))
        else Collected(trace + [MkdirAll(r.mountpoint)], m, ops.mkdirAll(r.mountpoint))
  {
    assert trace + [] == trace;
  }

  /** The inner loop of mountDisks and unmountDisks: the partitions of one
      disk, numbered from 1; err is the error that stopped it. */
  method CollectDisk(disk: Disk, ops: DiskOps, makeDirs: bool, points0: map<string, string>, trace0: seq<Effect>,
                     ghost tail: seq<PartRef>)
    returns (points: map<string, string>, trace: seq<Effect>, err: Option<Error>)
    ensures After(trace0, Collect(DiskRefs(disk, 0) + tail, ops, makeDirs, points0)) ==
      if err.Some? then Collected(trace, points, err) else After(trace, Collect(tail, ops, makeDirs, points))
  {
    points, trace := points0, trace0;
    var i := 0;
    while i < |disk.partitions|
      invariant 0 <= i <= |disk.partitions|
      invariant After(trace0, Collect(DiskRefs(disk, 0) + tail, ops, makeDirs, points0))
             == After(trace, Collect(DiskRefs(disk, i) + tail, ops, makeDirs, points))
    {
      var part := disk.partitions[i];
      ghost var refs := DiskRefs(disk, i) + tail;
      DiskRefsStep(disk, i, tail);
      var partname := ops.partPath(disk.device, i + 1);
      if partname.Err? || (makeDirs && ops.stat(part.mountpoint).NotExist? && ops.mkdirAll(part.mountpoint).Some?) {
        CollectStop(refs, ops, makeDirs, points, trace);
        if partname.Err? {
          return points, trace, Some(partname.error);
        }
        return points, trace + [MkdirAll(part.mountpoint)], ops.mkdirAll(part.mountpoint);
      }
      CollectAdvance(refs, ops, makeDirs, points, trace, partname.value);
      if makeDirs && ops.stat(part.mountpoint).NotExist? {
        trace := trace + [MkdirAll(part.mountpoint)];
      }
      points := points[partname.value := part.mountpoint];
      i := i + 1;
    }
    assert DiskRefs(disk, i) + tail == tail;
    return points, trace, None;
  }

  /** The nested loops of mountDisks and unmountDisks. The result holds the
      points handed to mount.Mount or mount.Unmount, None when the loop
      failed first. */
  method CollectPoints(disks: seq<Disk>, ops: DiskOps, makeDirs: bool) returns (c: Collected)
    ensures c == Collect(Refs(disks), ops, makeDirs, map[])
  {
    var points: map<string, string> := map[];
    var trace: seq<Effect> := [];
    var k := 0;
    while k < |disks|
      invariant 0 <= k <= |disks|
      invariant Collect(Refs(disks), ops, makeDirs, map[]) == After(trace, Collect(Refs(disks[k..]), ops, makeDirs, points))
    {
      RefsStep(disks, k);
      var err;
      points, trace, err := CollectDisk(disks[k], ops, makeDirs, points, trace, Refs(disks[k + 1..]));
      if err.Some? {
        return Collected(trace, points, err);
      }
      k := k + 1;
    }
    assert disks[k..] == [];
    assert trace + [] == trace;
    return Collected(trace, points, None);
  }

  /** mountDisks. */
  method MountDisks(disks: seq<Disk>, ops: DiskOps, mountErr: Option<Error>) returns (o: Outcome, mounted: Option<map<string, string>>)
    ensures (o, mounted) == MountDisksSpec(disks, ops, mountErr)
  {
    var c := CollectPoints(disks, ops, true);
    if c.err.Some? {
      return Outcome(c.err, c.trace), None;
    }
    return Outcome(mountErr, c.trace), Some(c.points);
  }

  /** unmountDisks. */
  method UnmountDisks(disks: seq<Disk>, ops: DiskOps, unmountErr: Option<Error>) returns (o: Outcome, unmounted: Option<map<string, string>>)
    ensures (o, unmounted) == UnmountDisksSpec(disks, ops, unmountErr)
  {
    var c := CollectPoints(disks, ops, false);
    if c.err.Some? {
      return Outcome(c.err, c.trace), None;
    }
    return Outcome(unmountErr, c.trace), Some(c.points);
  }

  /** unmountDisks makes no directories. */
  lemma UnmountMakesNoDirectories(disks: seq<Disk>, ops: DiskOps, unmountErr: Option<Error>)
    ensures UnmountDisksSpec(disks, ops, unmountErr).0.trace == []
  {
    CollectMkdirs(Refs(disks), ops, false, map[]);
    var t := Collect(Refs(disks), ops, false, map[]).trace;
    if t != [] {
      assert t[0] in t;
      CollectTraceIsMkdirs(Refs(disks), ops, false, map[]);
    }
  }

  lemma {:induction false} CollectTraceIsMkdirs(refs: seq<PartRef>, ops: DiskOps, makeDirs: bool, m: map<string, string>)
    ensures forall e :: e in Collect(refs, ops, makeDirs, m).trace ==> e.MkdirAll?
  {
    if refs != [] {
      var pp := ops.partPath(refs[0].device, refs[0].number);
      if pp.Ok? {
        CollectTraceIsMkdirs(refs[1..], ops, makeDirs, m[pp.value := refs[0].mountpoint]);
      }
    }
  }
}
