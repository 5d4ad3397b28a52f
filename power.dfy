/** The power tasks: Reboot and Shutdown choose the reboot(2) command the
    caller executes, publish it and return it as a RebootError; KexecPrepare
    loads the default boot entry's kernel for a kexec reboot, falling back to
    a firmware reboot when kexec is unavailable. */
module Power {
  import opened Common
  import opened Strings

  /** constants.KernelParamShutdown. */
  const KernelParamShutdown: string := "talos.shutdown"

  /** constants.BootMountPoint. */
  const BootMountPoint: string := "/boot"

  /** The part of the machine state the power tasks read and write. */
  class MachineState {
    var kexecPrepared: bool

    constructor ()
      ensures !kexecPrepared
    {
      kexecPrepared := false;
    }
  }

  /** The outcome of a task that ends in a reboot command: the restart
      code published, then (for Reboot) the platform event, and the command
      returned as the error the caller acts on. */
  function RebootOutcome(cmd: RebootCmd, fire: bool): Outcome
  {
    Outcome(Some(RebootError(cmd)), [PublishRestart(RebootCode(cmd))] + (if fire then [FireEvent(Rebooted)] else []))
  }

  /** Reboot: KEXEC once a kexec kernel is prepared, RESTART otherwise. */
  function Reboot(kexecPrepared: bool): (o: Outcome)
  {
    RebootOutcome(if kexecPrepared then Kexec else Restart, true)
  }

  /** procfs Parameter.First(): the first value of a kernel parameter, nil
      for an absent parameter or one without values. */
  function First(param: Option<seq<string>>): (v: Option<string>)
    ensures v.Some? <==> param.Some? && |param.value| > 0
    ensures v.Some? ==> v.value == param.value[0]
  {
    if param.Some? && |param.value| > 0 then Some(param.value[0]) else None
  }

  /** Shutdown: HALT when the shutdown parameter's first value is "halt",
      POWER_OFF otherwise; no platform event. */
  function Shutdown(shutdownParam: Option<seq<string>>): (o: Outcome)
  {
    RebootOutcome(if First(shutdownParam) == Some("halt") then Halt else PowerOff, false)
  }

  /** Reboot returns KEXEC exactly when kexec was prepared and RESTART
      otherwise, publishes that same command, then fires Rebooted: the
      published code is that of the returned command and of no other. */
  lemma RebootCommand(kexecPrepared: bool)
    ensures var o := Reboot(kexecPrepared);
      && o.err.Some? && o.err.value.RebootError?
      && (o.err.value.cmd == Kexec <==> kexecPrepared)
      && (o.err.value.cmd == Restart <==> !kexecPrepared)
      && o.trace == [PublishRestart(RebootCode(o.err.value.cmd)), FireEvent(Rebooted)]
      && forall c :: PublishRestart(RebootCode(c)) in o.trace <==> c == o.err.value.cmd
  {
  }

  /** Shutdown returns HALT exactly when the first value of the shutdown
      parameter is "halt", POWER_OFF otherwise, and publishes that same
      command and nothing else: the published code is that of the
      returned command and of no other. */
  lemma ShutdownCommand(shutdownParam: Option<seq<string>>)
    ensures var o := Shutdown(shutdownParam);
      && o.err.Some? && o.err.value.RebootError?
      && (o.err.value.cmd == Halt <==> shutdownParam.Some? && |shutdownParam.value| > 0 && shutdownParam.value[0] == "halt")
      && (o.err.value.cmd == Halt || o.err.value.cmd == PowerOff)
      && o.trace == [PublishRestart(RebootCode(o.err.value.cmd))]
      && forall c :: PublishRestart(RebootCode(c)) in o.trace <==> c == o.err.value.cmd
  {
  }

  /** One boot entry of the GRUB configuration. */
  datatype BootEntry = BootEntry(linux: string, initrd: string, cmdline: string)

  /** The GRUB configuration: the default entry's key and the entries. */
  datatype GrubConfig = GrubConfig(default: string, entries: map<string, BootEntry>)

  /** What KexecPrepare needs to know of its world. */
  datatype KexecWorld = KexecWorld(
    data: SequenceData,
    configPresent: bool,                          // r.Config() != nil
    grub: Result<Option<GrubConfig>, Error>,      // grub.Read(grub.ConfigPath)
    openErr: string -> Option<Error>,             // os.Open, by path
    loadErr: Option<Error>)                       // unix.KexecFileLoad

  /** What KexecPrepare does: its outcome, and whether it marks kexec as
      prepared. */
  datatype KexecResult = KexecResult(outcome: Outcome, prepared: bool)

  /** The kexec load errors that mean "no kexec here, reboot through
      firmware": disabled in the kernel, disabled by sysctl, or busy. */
  predicate KexecUnavailable(e: Error)
  {
    Is(e, ENOSYS) || Is(e, EPERM) || Is(e, EBUSY)
  }

  /** KexecPrepare, over its world. */
  function KexecPrepareSpec(w: KexecWorld): KexecResult
  {
    if w.data.RebootRequest? && w.data.mode == Powercycle then KexecResult(Outcome(None, []), false)
    else if !w.configPresent then KexecResult(Outcome(None, []), false)
    else
      match w.grub
      case Err(e) => KexecResult(Outcome(Some(e), []), false)
      case Ok(None) => KexecResult(Outcome(None, []), false)
      case Ok(Some(conf)) =>
        if conf.default !in conf.entries then KexecResult(Outcome(None, []), false)
        else
          var entry := conf.entries[conf.default];
          var kernelPath := Join(BootMountPoint, entry.linux);
          var initrdPath := Join(BootMountPoint, entry.initrd);
          if w.openErr(kernelPath).Some? then KexecResult(Outcome(w.openErr(kernelPath), []), false)
          else if w.openErr(initrdPath).Some? then KexecResult(Outcome(w.openErr(initrdPath), []), false)
          else
            var trace := [KexecLoad(kernelPath, initrdPath, TrimSpace(entry.cmdline))];
            match w.loadErr
            case None => KexecResult(Outcome(None, trace), true)
            case Some(e) =>
              if KexecUnavailable(e) then KexecResult(Outcome(None, trace), false)
              else KexecResult(Outcome(Some(Wrapped("error loading kernel for kexec", e)), trace), false)
  }

  /** The task reaches the kexec load: no power-cycle request, a
      configuration, a GRUB configuration with its default entry, and both
      images open. */
  predicate ReachesLoad(w: KexecWorld)
  {
    && !(w.data.RebootRequest? && w.data.mode == Powercycle)
    && w.configPresent
    && w.grub.Ok? && w.grub.value.Some?
    && var conf := w.grub.value.value;
    && conf.default in conf.entries
    && w.openErr(Join(BootMountPoint, conf.entries[conf.default].linux)).None?
    && w.openErr(Join(BootMountPoint, conf.entries[conf.default].initrd)).None?
  }

  /** Kexec is marked prepared exactly when the load was attempted and
      succeeded; the load is attempted at most once, with the default
      entry's images under /boot and its trimmed command line. */
  lemma KexecPreparedOnlyOnLoad(w: KexecWorld)
    ensures var r := KexecPrepareSpec(w);
      && (r.prepared <==> ReachesLoad(w) && w.loadErr.None?)
      && (r.outcome.trace != [] <==> ReachesLoad(w))
      && (ReachesLoad(w) ==>
            var entry := w.grub.value.value.entries[w.grub.value.value.default];
            r.outcome.trace == [KexecLoad(Join(BootMountPoint, entry.linux), Join(BootMountPoint, entry.initrd), TrimSpace(entry.cmdline))])
  {
  }

  /** A power-cycle request, no configuration, no GRUB configuration, a
      missing default entry, and a kexec load refused with ENOSYS, EPERM or
      EBUSY all succeed without preparing kexec. */
  lemma KexecFallbacks(w: KexecWorld)
    ensures (|| (w.data.RebootRequest? && w.data.mode == Powercycle)
             || !w.configPresent
             || w.grub == Ok(None)
             || (w.grub.Ok? && w.grub.value.Some? && w.grub.value.value.default !in w.grub.value.value.entries))
            ==> KexecPrepareSpec(w) == KexecResult(Outcome(None, []), false)
    ensures ReachesLoad(w) && w.loadErr.Some? && KexecUnavailable(w.loadErr.value) ==>
              KexecPrepareSpec(w).outcome.err.None? && !KexecPrepareSpec(w).prepared
  {
  }

  /** KexecPrepare fails exactly on a GRUB read error, an image that does
      not open, or a load error other than the fallbacks; only the last is
      wrapped. */
  lemma KexecErrors(w: KexecWorld)
    ensures var r := KexecPrepareSpec(w);
      r.outcome.err.Some? <==>
        (&& !(w.data.RebootRequest? && w.data.mode == Powercycle) && w.configPresent
         && (|| w.grub.Err?
             || (w.grub.value.Some? && w.grub.value.value.default in w.grub.value.value.entries
                 && (!ReachesLoad(w) || (w.loadErr.Some? && !KexecUnavailable(w.loadErr.value))))))
    ensures var r := KexecPrepareSpec(w);
      ReachesLoad(w) && w.loadErr.Some? && !KexecUnavailable(w.loadErr.value) ==>
        r.outcome.err == Some(Wrapped("error loading kernel for kexec", w.loadErr.value))
    ensures w.grub.Err? && !(w.data.RebootRequest? && w.data.mode == Powercycle) && w.configPresent ==>
      KexecPrepareSpec(w).outcome == Outcome(Some(w.grub.error), [])
  {
  }

  /** The reboot that follows KexecPrepare on a machine not yet prepared
      executes KEXEC exactly when the kexec load succeeded. */
  lemma RebootAfterKexecPrepare(w: KexecWorld)
    ensures Reboot(KexecPrepareSpec(w).prepared).err == Some(RebootError(if ReachesLoad(w) && w.loadErr.None? then Kexec else Restart))
  {
    KexecPreparedOnlyOnLoad(w);
  }

  /** KexecPrepare, on the machine state: the flag is set on a successful
      load and left alone otherwise. */
  method KexecPrepare(m: MachineState, w: KexecWorld) returns (o: Outcome)
    modifies m
    ensures o == KexecPrepareSpec(w).outcome
    ensures m.kexecPrepared == (old(m.kexecPrepared) || KexecPrepareSpec(w).prepared)
  {
    var r := KexecPrepareSpec(w);
    if r.prepared {
      m.kexecPrepared := true;
    }
    return r.outcome;
  }

  /** Reboot, on the machine state. */
  method RebootTask(m: MachineState) returns (o: Outcome)
    ensures o == Reboot(m.kexecPrepared)
  {
    var cmd := Restart;
    if m.kexecPrepared {
      cmd := Kexec;
    }
    return Outcome(Some(RebootError(cmd)), [PublishRestart(RebootCode(cmd)), FireEvent(Rebooted)]);
  }
}
