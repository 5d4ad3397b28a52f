/** The mount-table scans of the unmount tasks: each line is split into
    fields, lines with fewer than two fields are skipped, a selected line's
    mount point is unmounted, EINVAL is tolerated and any other unmount
    error ends the scan. */
module MountFilters {
  import opened Common
  import opened Strings

  /** constants.EphemeralMountPoint. */
  const EphemeralMountPoint: string := "/var"

  /** Which lines a scan unmounts. */
  datatype Filter =
    | PodMounts                          // UnmountPodMounts
    | SystemDiskBindMounts(devname: string) // UnmountSystemDiskBindMounts, for the system disk's device name

  /** The device of a mount-table line with device-mapper names rewritten. */
  function Device(fields: seq<string>): string
    requires |fields| >= 1
  {
    ReplaceAll(fields[0], "/dev/mapper", "/dev")
  }

  /** The line-selection rule of each scan, on the fields of one line. */
  predicate Selects(filter: Filter, fields: seq<string>)
  {
    |fields| >= 2 &&
    match filter
    case PodMounts => HasPrefix(fields[1], EphemeralMountPoint + "/")
    case SystemDiskBindMounts(devname) =>
      HasPrefix(Device(fields), devname) && Device(fields) != devname
  }

  /** The mount points a scan would unmount if every unmount succeeded, in
      table order. */
  function Targets(filter: Filter, lines: seq<string>): (t: seq<string>)
    ensures |t| <= |lines|
  {
    if lines == [] then []
    else
      var f := Fields(lines[0]);
      (if Selects(filter, f) then [f[1]] else []) + Targets(filter, lines[1..])
  }

  /** An unmount result the scan carries on after. */
  predicate Tolerated(r: Option<Error>)
  {
    r.None? || Is(r.value, EINVAL)
  }

  /** The mount points of the unmounts in a trace, in order. */
  function Attempts(trace: seq<Effect>): (a: seq<string>)
    ensures |a| <= |trace|
  {
    if trace == [] then []
    else (if trace[0].Unmount? then [trace[0].mountpoint] else []) + Attempts(trace[1..])
  }

  /** o, with t done before it. */
  function After(t: seq<Effect>, o: Outcome): Outcome
  {
    Outcome(o.err, t + o.trace)
  }

  /** The scan, line by line: Unmount(mp) for each selected line, followed
      by the logged error when it was EINVAL; the first other error is
      returned wrapped with the mount point. */
  function Scan(filter: Filter, lines: seq<string>, unmount: string -> Option<Error>): Outcome
  {
    if lines == [] then Outcome(None, [])
    else
      var f := Fields(lines[0]);
      if !Selects(filter, f) then Scan(filter, lines[1..], unmount)
      else
        var mp := f[1];
        match unmount(mp)
        case None => After([Unmount(mp)], Scan(filter, lines[1..], unmount))
        case Some(e) =>
          if Is(e, EINVAL) then After([Unmount(mp), Warned(e)], Scan(filter, lines[1..], unmount))
          else Outcome(Some(Wrapped("error unmounting " + mp, e)), [Unmount(mp)])
  }

  lemma {:induction false} AttemptsAppend(a: seq<Effect>, b: seq<Effect>)
    ensures Attempts(a + b) == Attempts(a) + Attempts(b)
  {
    if a == [] {
      assert a + b == b;
    } else {
      assert (a + b)[1..] == a[1..] + b;
      AttemptsAppend(a[1..], b);
      var head := if a[0].Unmount? then [a[0].mountpoint] else [];
      assert Attempts(a + b) == head + Attempts(a[1..] + b);
      ConcatAssoc(head, Attempts(a[1..]), Attempts(b));
    }
  }

  /** The index of the first target whose unmount is not tolerated, |t| if none. */
  function FirstIntolerable(t: seq<string>, unmount: string -> Option<Error>): (n: nat)
    ensures n <= |t|
    ensures forall k :: 0 <= k < n ==> Tolerated(unmount(t[k]))
    ensures n < |t| ==> !Tolerated(unmount(t[n]))
  {
    if t == [] then 0
    else if !Tolerated(unmount(t[0])) then 0
    else 1 + FirstIntolerable(t[1..], unmount)
  }

  /** The targets up to and including the first intolerable one. */
  function Reached(t: seq<string>, unmount: string -> Option<Error>): seq<string>
  {
    var n := FirstIntolerable(t, unmount);
    if n < |t| then t[..n + 1] else t
  }

  lemma {:induction false} ScanAttempts(filter: Filter, lines: seq<string>, unmount: string -> Option<Error>)
    ensures Attempts(Scan(filter, lines, unmount).trace) == Reached(Targets(filter, lines), unmount)
  {
    if lines != [] {
      var f := Fields(lines[0]);
      var rest := Scan(filter, lines[1..], unmount);
      var tr := Targets(filter, lines[1..]);
      ScanAttempts(filter, lines[1..], unmount);
      if Selects(filter, f) {
        var mp := f[1];
        assert Targets(filter, lines) == [mp] + tr;
        var r := unmount(mp);
        if Tolerated(r) {
          var pre := if r.None? then [Unmount(mp)] else [Unmount(mp), Warned(r.value)];
          assert Scan(filter, lines, unmount).trace == pre + rest.trace;
          AttemptsAppend(pre, rest.trace);
          assert Attempts(pre) == [mp] by {
            assert pre[1..] == [] || pre[1..] == [Warned(r.value)];
          }
          ReachedCons(mp, tr, unmount);
        } else {
          assert Scan(filter, lines, unmount).trace == [Unmount(mp)];
          assert Attempts([Unmount(mp)]) == [mp];
          assert ([mp] + tr)[..1] == [mp];
        }
      } else {
        assert Targets(filter, lines) == tr;
        assert Scan(filter, lines, unmount) == rest;
      }
    }
  }

  lemma ReachedCons(mp: string, tr: seq<string>, unmount: string -> Option<Error>)
    requires Tolerated(unmount(mp))
    ensures Reached([mp] + tr, unmount) == [mp] + Reached(tr, unmount)
  {
    var t := [mp] + tr;
    assert t[1..] == tr;
    var n := FirstIntolerable(tr, unmount);
    assert FirstIntolerable(t, unmount) == 1 + n;
    if n < |tr| {
      assert t[..n + 2] == [mp] + tr[..n + 1];
    }
  }

  lemma {:induction false} ScanError(filter: Filter, lines: seq<string>, unmount: string -> Option<Error>)
    ensures var t := Targets(filter, lines);
      var n := FirstIntolerable(t, unmount);
      Scan(filter, lines, unmount).err ==
        if n < |t| then Some(Wrapped("error unmounting " + t[n], unmount(t[n]).value)) else None
  {
    if lines != [] {
      var f := Fields(lines[0]);
      var tr := Targets(filter, lines[1..]);
      ScanError(filter, lines[1..], unmount);
      if Selects(filter, f) {
        var t := [f[1]] + tr;
        assert Targets(filter, lines) == t;
        assert t[1..] == tr;
        if Tolerated(unmount(f[1])) {
          assert Scan(filter, lines, unmount).err == Scan(filter, lines[1..], unmount).err;
          var n := FirstIntolerable(tr, unmount);
          assert FirstIntolerable(t, unmount) == 1 + n;
          if n < |tr| {
            assert t[n + 1] == tr[n];
            assert Scan(filter, lines[1..], unmount).err == Some(Wrapped("error unmounting " + tr[n], unmount(tr[n]).value));
          } else {
            assert Scan(filter, lines[1..], unmount).err == None;
          }
        } else {
          assert FirstIntolerable(t, unmount) == 0;
          assert t[0] == f[1];
          assert Scan(filter, lines, unmount).err == Some(Wrapped("error unmounting " + f[1], unmount(f[1]).value));
        }
      } else {
        assert Targets(filter, lines) == tr;
        assert Scan(filter, lines, unmount) == Scan(filter, lines[1..], unmount);
      }
    }
  }

  /** What a scan does: it unmounts a prefix of its targets, in order; it
      succeeds exactly when every target's unmount is tolerated, and then
      it has unmounted them all; otherwise it stops at the first target
      whose unmount failed otherwise, and returns that error wrapped. */
  lemma ScanUnmountsTargetsInOrder(filter: Filter, lines: seq<string>, unmount: string -> Option<Error>)
    ensures var o := Scan(filter, lines, unmount);
      var a := Attempts(o.trace);
      var t := Targets(filter, lines);
      && |a| <= |t| && a == t[..|a|]
      && (o.err.None? <==> forall k :: 0 <= k < |t| ==> Tolerated(unmount(t[k])))
      && (o.err.None? ==> a == t)
      && (o.err.Some? ==> |a| >= 1 && !Tolerated(unmount(a[|a| - 1]))
                          && o.err == Some(Wrapped("error unmounting " + a[|a| - 1], unmount(a[|a| - 1]).value)))
      && forall k :: 0 <= k < |a| - 1 ==> Tolerated(unmount(a[k]))
  {
    ScanAttempts(filter, lines, unmount);
    ScanError(filter, lines, unmount);
  }

  /** A line with fewer than two fields is skipped by every scan. */
  lemma ShortLinesSkipped(filter: Filter, line: string, lines: seq<string>, unmount: string -> Option<Error>)
    requires |Fields(line)| < 2
    ensures Scan(filter, [line] + lines, unmount) == Scan(filter, lines, unmount)
    ensures Targets(filter, [line] + lines) == Targets(filter, lines)
  {
    assert ([line] + lines)[1..] == lines;
  }

  /** The pod-mount scan takes a line "device mountpoint ..." exactly when
      the mount point starts with "/var/": "/var" itself is never unmounted. */
  lemma PodMountSelection(device: string, mountpoint: string, rest: string)
    requires device != [] && NoSpace(device)
    requires mountpoint != [] && NoSpace(mountpoint)
    ensures Selects(PodMounts, Fields(device + " " + mountpoint + " " + rest)) <==> HasPrefix(mountpoint, "/var/")
    ensures !Selects(PodMounts, Fields(device + " /var " + rest))
  {
    MountLineFields(device, mountpoint, rest);
    MountLineFields(device, "/var", rest);
    assert device + " /var " + rest == device + " " + "/var" + " " + rest;
  }

  /** The system-disk scan takes a device-mapper line "/dev/mapper<name> mp ..."
      exactly when "/dev<name>" extends the disk's device name strictly: the
      disk itself is never unmounted, its partitions and their mapped
      devices are. */
  lemma SystemDiskSelection(devname: string, name: string, mountpoint: string, rest: string)
    requires NoSpace(name) && !Occurs(name, "/dev/mapper")
    requires mountpoint != [] && NoSpace(mountpoint)
    ensures Selects(SystemDiskBindMounts(devname), Fields("/dev/mapper" + name + " " + mountpoint + " " + rest))
            <==> HasPrefix("/dev" + name, devname) && "/dev" + name != devname
  {
    var device := "/dev/mapper" + name;
    assert NoSpace(device) by {
      forall i | 0 <= i < |device| ensures !IsSpace(device[i]) {
        if i >= |"/dev/mapper"| { assert device[i] == name[i - |"/dev/mapper"|]; }
      }
    }
    MountLineFields(device, mountpoint, rest);
    DeviceMapperRewrite(name);
  }

  /** The scanner loop over the table's lines: the same unmounts, in the
      same order, with the same result as the scan. */
  method UnmountMatching(filter: Filter, lines: seq<string>, unmount: string -> Option<Error>) returns (o: Outcome)
    ensures o == Scan(filter, lines, unmount)
  {
    var trace: seq<Effect> := [];
    var i := 0;
    while i < |lines|
      invariant 0 <= i <= |lines|
      invariant Scan(filter, lines, unmount) == After(trace, Scan(filter, lines[i..], unmount))
    {
      assert lines[i..][1..] == lines[i + 1..];
      var fields := Fields(lines[i]);
      if |fields| < 2 {
        i := i + 1;
        continue;
      }
      if Selects(filter, fields) {
        var mountpoint := fields[1];
        var err := unmount(mountpoint);
        if err.Some? {
          if Is(err.value, EINVAL) {
            trace := trace + [Unmount(mountpoint), Warned(err.value)];
          } else {
            return Outcome(Some(Wrapped("error unmounting " + mountpoint, err.value)), trace + [Unmount(mountpoint)]);
          }
        } else {
          trace := trace + [Unmount(mountpoint)];
        }
      }
      i := i + 1;
    }
    return Outcome(None, trace);
  }

  /** UnmountPodMounts: a failure to read the mount table is returned as
      is; otherwise the scan unmounts the mount points under "/var/". */
  method UnmountPodMounts(mounts: Result<seq<string>, Error>, unmount: string -> Option<Error>) returns (o: Outcome)
    ensures mounts.Err? ==> o == Outcome(Some(mounts.error), [])
    ensures mounts.Ok? ==> o == Scan(PodMounts, mounts.value, unmount)
  {
    if mounts.Err? {
      return Outcome(Some(mounts.error), []);
    }
    o := UnmountMatching(PodMounts, mounts.value, unmount);
  }

  /** UnmountSystemDiskBindMounts: a failure to open the mount table is
      returned as is; otherwise the scan unmounts what lies on the system
      disk's partitions. */
  method UnmountSystemDiskBindMounts(devname: string, mounts: Result<seq<string>, Error>, unmount: string -> Option<Error>) returns (o: Outcome)
    ensures mounts.Err? ==> o == Outcome(Some(mounts.error), [])
    ensures mounts.Ok? ==> o == Scan(SystemDiskBindMounts(devname), mounts.value, unmount)
  {
    if mounts.Err? {
      return Outcome(Some(mounts.error), []);
    }
    o := UnmountMatching(SystemDiskBindMounts(devname), mounts.value, unmount);
  }
}
