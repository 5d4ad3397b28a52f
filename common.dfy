/** Shared vocabulary of the node-lifecycle task model: optional values,
    results, the errors the tasks construct or pass through, the platform
    events they fire, the reboot commands, and the effects a task leaves in
    its ordered trace. */
module Common {

  datatype Option<+T> = None | Some(value: T)

  datatype Result<+T, +E> = Ok(value: T) | Err(error: E)

  /** The lifecycle sequences a task can be set up for. */
  datatype Sequence = Boot | Initialize | Install | Upgrade | StageUpgrade | MaintenanceUpgrade | Shutdown | Reboot | Reset | Noop

  datatype RebootMode = DefaultReboot | Powercycle

  /** The sequence-specific payload handed to every task setup function. */
  datatype SequenceData =
    | NoData
    | UpgradeRequest(image: string, preserve: bool, stage: bool, force: bool)
    | RebootRequest(mode: RebootMode)
    | ResetRequest(graceful: bool, reboot: bool)

  /** The kernel error numbers the tasks test for by identity. */
  datatype Errno = EINVAL | ENOSYS | EPERM | EBUSY | ENOENT | OtherErrno(code: nat)

  /** Errors, one variant per error the tasks construct, plus the errors of
      collaborators (`External`), which the tasks only pass on or wrap. */
  datatype Error =
    | Sys(errno: Errno)                          // a raw syscall error
    | External(source: string)                   // an error of a collaborator, opaque here
    | Wrapped(context: string, cause: Error)     // fmt.Errorf("<context>: %w", cause)
    | Multi(errors: seq<Error>)                  // an accumulated multierror
    | RebootError(cmd: RebootCmd)                // runtime.RebootError
    | InvalidSequenceData                        // runtime.ErrInvalidSequenceData
    | UnsupportedInstallConfiguration
    | UnknownFileOperation(path: string, op: string)
    | FileMustExist(path: string)
    | InvalidFileMode(mode: string)
    | CreateOutsideVar(path: string)

  /** errors.Is(err, errno): looks through wrapping and accumulation. */
  predicate Is(e: Error, no: Errno)
  {
    match e
    case Sys(n) => n == no
    case Wrapped(_, cause) => Is(cause, no)
    case Multi(es) => exists i :: 0 <= i < |es| && Is(es[i], no)
    case _ => false
  }

  /** What os.Stat reports for a path. */
  datatype Stat = NotExist | StatError(err: Error) | Exists(regular: bool, mode: string)

  /** Platform event types fired through platform.FireEvent. */
  datatype EventType = Activate | ConfigLoaded | ConfigLoadError | Installed | Upgraded | Rebooted | Failure

  /** The reboot(2) commands a task can ask its caller to execute. */
  datatype RebootCmd = Restart | PowerOff | Halt | Kexec

  /** The LINUX_REBOOT_CMD_* code of each command, as published in a RestartEvent. */
  function RebootCode(c: RebootCmd): nat
  {
    match c
    case Restart => 0x01234567
    case PowerOff => 0x4321FEDC
    case Halt => 0xCDEF0123
    case Kexec => 0x45584543
  }

  /** The stop action of the container runtime client. */
  datatype StopAction = StopAndRemove | StopOnly

  /** Network namespace modes of pod sandboxes. */
  datatype NamespaceMode = PodMode | ContainerMode | NodeMode

  /** A decoded install-options record, as staged before a reboot. */
  datatype InstallOptions = InstallOptions(disk: string, image: string, force: bool, zero: bool, upgrade: bool, extraKernelArgs: seq<string>)

  /** The option arguments of one installer invocation. */
  datatype InstallerOptions =
    | OptionSetters(force: bool, zero: bool, extraKernelArgs: seq<string>) // WithForce, WithZero, WithExtraKernelArgs
    | FromStagedOptions(options: InstallOptions)                           // WithOptions(staged)
    | FromUpgradeRequest(request: SequenceData)                            // OptionsFromUpgradeRequest

  /** One invocation of install.RunInstallerContainer. */
  datatype InstallerCall = InstallerCall(disk: string, platform: string, image: string, options: InstallerOptions)

  /** A system service the tasks load or start. */
  datatype Service = CRI | Trustd | Etcd(bootstrap: bool) | Kubelet

  /** The observable effects of a task, in the order it causes them. */
  datatype Effect =
    | FireEvent(event: EventType)
    | PublishRestart(code: nat)
    | RunInstaller(call: InstallerCall)
    | Warned(err: Error)                                   // an error logged and not returned
    | AnnouncePause(task: string, minutes: nat, err: Error) // "<task> failed, rebooting in N minutes"
    | Paused(minutes: nat)                                  // waited for the timer or for cancellation
    | CordonAndDrain(node: string)
    | NewEtcdClient
    | LeaveCluster
    | WaitFinalizers
    | WaitInhibitLock
    | StopService(name: string)
    | NewCRIClient
    | StopAndRemoveSandboxes(action: StopAction, modes: seq<NamespaceMode>) // empty modes: every sandbox
    | Unmount(mountpoint: string)
    | MkdirAll(path: string)
    | WriteFile(path: string, content: string, perm: nat)
    | Chmod(path: string, perm: nat)
    | BindMountReadOnly(source: string, target: string)
    | KexecLoad(kernel: string, initrd: string, cmdline: string)
    | LoadServices(services: seq<Service>)
    | LoadAndStartServices(services: seq<Service>)

  /** What a task execution returns: its error (None is success) and its trace. */
  datatype Outcome = Outcome(err: Option<Error>, trace: seq<Effect>)

  /** Number of occurrences of x in s. */
  function Count<T(==)>(s: seq<T>, x: T): (n: nat)
    ensures n <= |s|
    ensures n == 0 <==> x !in s
  {
    if s == [] then 0 else (if s[0] == x then 1 else 0) + Count(s[1..], x)
  }

  /** Concatenation regroups; stated apart, it costs the solver far less
      than inside a larger proof. */
  lemma ConcatAssoc<T>(a: seq<T>, b: seq<T>, c: seq<T>)
    ensures (a + b) + c == a + (b + c)
  {
  }
}
