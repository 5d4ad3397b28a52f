/** The Install task's three-way branch (fresh install, staged upgrade,
    unsupported) and the Upgrade task's payload check. */
module InstallTasks {
  import opened Common

  /** What the Install task observes about the machine, its configuration
      and the installer run. */
  datatype InstallWorld = InstallWorld(
    installed: bool,                           // the machine is installed
    installStaged: bool,                       // an install was staged before the last reboot
    configuredImage: string,                   // machine.install.image of the config
    defaultInstallerImage: string,             // the build's default installer image
    installDisk: Result<string, Error>,        // machine.install.disk, resolved
    zero: bool,                                // machine.install.wipe
    extraKernelArgs: seq<string>,
    platform: string,
    systemDisk: string,                        // device name of the current system disk
    stagedOptions: Result<InstallOptions, Error>, // decoding of the staged options
    stagedImageRef: string,
    installerResult: Option<Error>)            // what running the installer container returns

  /** The installer image of a fresh install: the configured one, or the
      default when none is configured. */
  function FreshInstallImage(w: InstallWorld): (image: string)
    ensures w.configuredImage != "" ==> image == w.configuredImage
    ensures w.configuredImage == "" ==> image == w.defaultInstallerImage
  {
    if w.configuredImage == "" then w.defaultInstallerImage else w.configuredImage
  }

  /** The installer is reached: a fresh install whose disk resolved, or a
      staged upgrade whose options decoded. */
  predicate ReachesInstaller(w: InstallWorld)
  {
    if !w.installed then w.installDisk.Ok? else w.installStaged && w.stagedOptions.Ok?
  }

  /** The Install task. */
  function Install(w: InstallWorld): (o: Outcome)
    // "not installed" wins over "staged"; installed and not staged is an error without any effect
    ensures w.installed && !w.installStaged ==> o == Outcome(Some(UnsupportedInstallConfiguration), [])
    // a bad disk or a bad staged-options record returns before the installer runs
    ensures !ReachesInstaller(w) ==> o.trace == [] && o.err.Some?
    ensures !w.installed && w.installDisk.Err? ==> o == Outcome(Some(w.installDisk.error), [])
    ensures w.installed && w.installStaged && w.stagedOptions.Err? ==>
      o.err == Some(Wrapped("error unserializing install options", w.stagedOptions.error))
    // otherwise the installer runs exactly once, then exactly one event fires
    ensures ReachesInstaller(w) ==> |o.trace| == 2 && o.trace[0].RunInstaller? && o.trace[1].FireEvent?
    ensures ReachesInstaller(w) && !w.installed ==>
      o.trace[0].call == InstallerCall(w.installDisk.value, w.platform, FreshInstallImage(w), OptionSetters(true, w.zero, w.extraKernelArgs))
    ensures ReachesInstaller(w) && w.installed ==>
      o.trace[0].call == InstallerCall(w.systemDisk, w.platform, w.stagedImageRef, FromStagedOptions(w.stagedOptions.value))
    // the installer's error is returned after one Failure event
    ensures ReachesInstaller(w) ==> o.err == w.installerResult
    ensures Count(o.trace, FireEvent(Failure)) == (if ReachesInstaller(w) && w.installerResult.Some? then 1 else 0)
    // success fires Installed for a fresh install and Upgraded for a staged one, never Activate
    ensures FireEvent(Installed) in o.trace <==> !w.installed && ReachesInstaller(w) && w.installerResult.None?
    ensures FireEvent(Upgraded) in o.trace <==> w.installed && ReachesInstaller(w) && w.installerResult.None?
    ensures FireEvent(Activate) !in o.trace
    ensures o.err.None? <==> ReachesInstaller(w) && w.installerResult.None?
  {
    if !w.installed then
      var image := FreshInstallImage(w);
      match w.installDisk
      case Err(e) => Outcome(Some(e), [])
      case Ok(disk) =>
        var call := InstallerCall(disk, w.platform, image, OptionSetters(true, w.zero, w.extraKernelArgs));
        RunAndReport(call, w.installerResult, Installed)
    else if w.installStaged then
      match w.stagedOptions
      case Err(e) => Outcome(Some(Wrapped("error unserializing install options", e)), [])
      case Ok(options) =>
        var call := InstallerCall(w.systemDisk, w.platform, w.stagedImageRef, FromStagedOptions(options));
        RunAndReport(call, w.installerResult, Upgraded)
    else
      Outcome(Some(UnsupportedInstallConfiguration), [])
  }

  /** Run the installer; fire Failure and return its error, or fire the success event. */
  function RunAndReport(call: InstallerCall, result: Option<Error>, success: EventType): Outcome
  {
    if result.Some? then Outcome(result, [RunInstaller(call), FireEvent(Failure)])
    else Outcome(None, [RunInstaller(call), FireEvent(success)])
  }

  /** The Upgrade task: anything but an upgrade request is refused before any
      effect; a request runs the installer immediately against the system
      disk with the requested image, with no event, and returns its error. */
  function Upgrade(data: SequenceData, systemDisk: string, platform: string, installerResult: Option<Error>): (o: Outcome)
    ensures !data.UpgradeRequest? ==> o.err == Some(InvalidSequenceData) && o.trace == []
    ensures data.UpgradeRequest? ==> o.err == installerResult
    ensures data.UpgradeRequest? ==> o.trace == [RunInstaller(InstallerCall(systemDisk, platform, data.image, FromUpgradeRequest(data)))]
    ensures forall e :: e in o.trace ==> !e.FireEvent?
  {
    match data
    case UpgradeRequest(image, _, _, _) =>
      Outcome(installerResult, [RunInstaller(InstallerCall(systemDisk, platform, image, FromUpgradeRequest(data)))])
    case _ => Outcome(Some(InvalidSequenceData), [])
  }
}
