/** The decisions of graceful teardown: cordon and drain, leaving etcd, and
    the ordered stop-and-remove of pods. */
module Teardown {
  import opened Common

  /** Path of the kubelet client certificate whose absence means the node never joined. */
  const KubeletClientCert: string := "/var/lib/kubelet/pki/kubelet-client-current.pem"

  /** CordonAndDrainNode: a missing kubelet certificate skips the task with
      success; otherwise the node name and a client are needed before the
      drain, whose error is returned. */
  function CordonAndDrainNode(certStat: Stat, nodeName: Result<string, Error>, clientErr: Option<Error>, drainErr: Option<Error>): (o: Outcome)
    ensures certStat.NotExist? ==> o == Outcome(None, [])
    ensures certStat.StatError? ==> o == Outcome(Some(certStat.err), [])
    ensures certStat.Exists? && nodeName.Err? ==> o == Outcome(Some(nodeName.error), [])
    ensures certStat.Exists? && nodeName.Ok? && clientErr.Some? ==> o == Outcome(clientErr, [])
    ensures (exists n :: CordonAndDrain(n) in o.trace) <==> certStat.Exists? && nodeName.Ok? && clientErr.None?
    ensures forall n :: CordonAndDrain(n) in o.trace ==> o.trace == [CordonAndDrain(n)] && n == nodeName.value && o.err == drainErr
    ensures o.err.None? <==> certStat.NotExist? || (certStat.Exists? && nodeName.Ok? && clientErr.None? && drainErr.None?)
  {
    match certStat
    case NotExist => Outcome(None, [])
    case StatError(e) => Outcome(Some(e), [])
    case Exists(_, _) =>
      match nodeName
      case Err(e) => Outcome(Some(e), [])
      case Ok(node) =>
        if clientErr.Some? then Outcome(clientErr, [])
        else Outcome(drainErr, [CordonAndDrain(node)])
  }

  /** Service states reported by the service supervisor. */
  datatype ServiceState = Initialized | Preparing | Waiting | Running | Stopping | Finished | Failed | Skipped

  datatype ServiceInfo = ServiceInfo(id: string, state: ServiceState)

  /** The states in which etcd was active, so that the node must formally leave. */
  predicate WasActive(s: ServiceState)
  {
    s == Running || s == Stopping || s == Failed
  }

  /** Index of the first service with the given id. */
  function FirstWithId(services: seq<ServiceInfo>, id: string): (r: Option<nat>)
    ensures r.Some? ==>
      && r.value < |services| && services[r.value].id == id
      && forall j :: 0 <= j < r.value ==> services[j].id != id
    ensures r.None? ==> forall j :: 0 <= j < |services| ==> services[j].id != id
  {
    if services == [] then None
    else if services[0].id == id then Some(0)
    else match FirstWithId(services[1..], id)
      case None => None
      case Some(k) => Some(k + 1)
  }

  /** The node must leave etcd: the first service listed under etcd's id was active. */
  predicate MustLeave(services: seq<ServiceInfo>, etcdID: string)
  {
    var k := FirstWithId(services, etcdID);
    k.Some? && WasActive(services[k.value].state)
  }

  /** The scan of LeaveEtcd over the service list: it stops at the first
      service whose id is etcd's and tests that service's state. */
  method ShouldLeaveEtcd(services: seq<ServiceInfo>, etcdID: string) returns (should: bool)
    ensures should <==> MustLeave(services, etcdID)
  {
    should := false;
    var i := 0;
    while i < |services|
      invariant i <= |services|
      invariant forall j :: 0 <= j < i ==> services[j].id != etcdID
      invariant !should
    {
      if services[i].id == etcdID {
        FirstWithIdAt(services, etcdID, i);
        should := WasActive(services[i].state);
        return;
      }
      i := i + 1;
    }
    FirstWithIdAt(services, etcdID, |services|);
  }

  /** When no service before i has the id, the first one with it is at i
      (or there is none, for i at the end). */
  lemma {:induction false} FirstWithIdAt(services: seq<ServiceInfo>, id: string, i: nat)
    requires i <= |services|
    requires forall j :: 0 <= j < i ==> services[j].id != id
    requires i < |services| ==> services[i].id == id
    ensures FirstWithId(services, id) == if i < |services| then Some(i) else None
  {
    if i > 0 {
      FirstWithIdAt(services[1..], id, i - 1);
    }
  }

  /** LeaveEtcd: no etcd member directory, or etcd never active, is success
      with no leave call; otherwise a client is made and the node leaves the
      cluster, any failure being returned. */
  method LeaveEtcd(memberStat: Stat, etcdID: string, services: seq<ServiceInfo>, clientErr: Option<Error>, leaveErr: Option<Error>)
    returns (o: Outcome)
    ensures memberStat.NotExist? ==> o == Outcome(None, [])
    ensures memberStat.StatError? ==> o == Outcome(Some(memberStat.err), [])
    ensures memberStat.Exists? && !MustLeave(services, etcdID) ==> o == Outcome(None, [])
    ensures LeaveCluster in o.trace <==> memberStat.Exists? && MustLeave(services, etcdID) && clientErr.None?
    ensures memberStat.Exists? && MustLeave(services, etcdID) ==>
      |o.trace| >= 1 && o.trace[0] == NewEtcdClient &&
      o.err == (if clientErr.Some? then Some(Wrapped("failed to create etcd client", clientErr.value))
                else if leaveErr.Some? then Some(Wrapped("failed to leave cluster", leaveErr.value))
                else None)
  {
    match memberStat {
      case NotExist => return Outcome(None, []);
      case StatError(e) => return Outcome(Some(e), []);
      case Exists(_, _) =>
    }
    var should := ShouldLeaveEtcd(services, etcdID);
    if !should {
      return Outcome(None, []);
    }
    if clientErr.Some? {
      return Outcome(Some(Wrapped("failed to create etcd client", clientErr.value)), [NewEtcdClient]);
    }
    if leaveErr.Some? {
      return Outcome(Some(Wrapped("failed to leave cluster", leaveErr.value)), [NewEtcdClient, LeaveCluster]);
    }
    return Outcome(None, [NewEtcdClient, LeaveCluster]);
  }

  /** The sandbox filter of the first removal: pods in POD or CONTAINER
      network mode; the second removal takes every remaining sandbox. */
  const PodNetworkModes: seq<NamespaceMode> := [PodMode, ContainerMode]

  /** The warning a failed bounded wait leaves, if it failed. */
  function Warn(e: Option<Error>): seq<Effect>
  {
    if e.Some? then [Warned(e.value)] else []
  }

  /** stopAndRemoveAllPods: the waits for lifecycle finalizers and for the
      inhibit-shutdown lock only warn; stopping kubelet, making the CRI
      client and the two sandbox removals are fatal, in that order. */
  function StopAndRemoveAllPods(action: StopAction, finalizersErr: Option<Error>, inhibitErr: Option<Error>,
                                stopKubeletErr: Option<Error>, clientErr: Option<Error>,
                                removePodModeErr: Option<Error>, removeRestErr: Option<Error>): (o: Outcome)
    // the task succeeds exactly when all four fatal steps do
    ensures o.err.None? <==> stopKubeletErr.None? && clientErr.None? && removePodModeErr.None? && removeRestErr.None?
  {
    var steps :=
      if stopKubeletErr.Some? then []
      else if clientErr.Some? then [NewCRIClient]
      else if removePodModeErr.Some? then [NewCRIClient, StopAndRemoveSandboxes(action, PodNetworkModes)]
      else [NewCRIClient, StopAndRemoveSandboxes(action, PodNetworkModes), StopAndRemoveSandboxes(action, [])];
    Outcome(
      if stopKubeletErr.Some? then stopKubeletErr else if clientErr.Some? then clientErr
      else if removePodModeErr.Some? then removePodModeErr else removeRestErr,
      [WaitFinalizers] + Warn(finalizersErr) + [WaitInhibitLock] + Warn(inhibitErr) + [StopService("kubelet")] + steps)
  }

  /** The waits are never fatal: whatever they return, the task's error is
      the same. */
  lemma WaitsNeverDecideError(action: StopAction, finalizersErr: Option<Error>, inhibitErr: Option<Error>,
                              stopKubeletErr: Option<Error>, clientErr: Option<Error>,
                              removePodModeErr: Option<Error>, removeRestErr: Option<Error>)
    ensures forall f, i ::
      StopAndRemoveAllPods(action, f, i, stopKubeletErr, clientErr, removePodModeErr, removeRestErr).err
        == StopAndRemoveAllPods(action, finalizersErr, inhibitErr, stopKubeletErr, clientErr, removePodModeErr, removeRestErr).err
  {
  }

  /** The task stops at its first failing fatal step: the last effect is
      that step, and the error returned is that step's error; on success the
      last effect is the removal of every remaining sandbox. */
  lemma ErrorOfLastStep(action: StopAction, finalizersErr: Option<Error>, inhibitErr: Option<Error>,
                        stopKubeletErr: Option<Error>, clientErr: Option<Error>,
                        removePodModeErr: Option<Error>, removeRestErr: Option<Error>)
    ensures var o := StopAndRemoveAllPods(action, finalizersErr, inhibitErr, stopKubeletErr, clientErr, removePodModeErr, removeRestErr);
      && |o.trace| > 0
      && var last := o.trace[|o.trace| - 1];
      && (last == StopService("kubelet") || last == NewCRIClient
          || last == StopAndRemoveSandboxes(action, PodNetworkModes) || last == StopAndRemoveSandboxes(action, []))
      && (last == StopService("kubelet") ==> o.err.Some? && o.err == stopKubeletErr)
      && (last == NewCRIClient ==> o.err.Some? && o.err == clientErr)
      && (last == StopAndRemoveSandboxes(action, PodNetworkModes) ==> o.err.Some? && o.err == removePodModeErr)
      && (last == StopAndRemoveSandboxes(action, []) ==> o.err == removeRestErr)
  {
  }

  /** Kubelet is always stopped, after the finalizer wait and then the
      inhibit-lock wait, and before the CRI client or any removal. */
  lemma KubeletStoppedAfterWaits(action: StopAction, finalizersErr: Option<Error>, inhibitErr: Option<Error>,
                                 stopKubeletErr: Option<Error>, clientErr: Option<Error>,
                                 removePodModeErr: Option<Error>, removeRestErr: Option<Error>)
    ensures var o := StopAndRemoveAllPods(action, finalizersErr, inhibitErr, stopKubeletErr, clientErr, removePodModeErr, removeRestErr);
      var k := |Warn(finalizersErr)| + |Warn(inhibitErr)| + 2;
      && k < |o.trace| && o.trace[k] == StopService("kubelet")
      && o.trace[0] == WaitFinalizers && o.trace[k - 1 - |Warn(inhibitErr)|] == WaitInhibitLock
      && forall j :: 0 <= j < k ==> !o.trace[j].StopAndRemoveSandboxes? && o.trace[j] != NewCRIClient
  {
  }

  /** Each failed wait leaves exactly its warning, and nothing else warns:
      no fatal step is ever logged instead of returned. */
  lemma WarningsOnlyFromWaits(action: StopAction, finalizersErr: Option<Error>, inhibitErr: Option<Error>,
                              stopKubeletErr: Option<Error>, clientErr: Option<Error>,
                              removePodModeErr: Option<Error>, removeRestErr: Option<Error>)
    ensures var o := StopAndRemoveAllPods(action, finalizersErr, inhibitErr, stopKubeletErr, clientErr, removePodModeErr, removeRestErr);
      forall e :: Warned(e) in o.trace <==> Some(e) == finalizersErr || Some(e) == inhibitErr
  {
  }

  /** A kubelet stop error aborts before any sandbox is touched; the CRI
      client and the first removal need kubelet stopped, the second removal
      needs the first to have succeeded. */
  lemma SandboxRemovalGating(action: StopAction, finalizersErr: Option<Error>, inhibitErr: Option<Error>,
                             stopKubeletErr: Option<Error>, clientErr: Option<Error>,
                             removePodModeErr: Option<Error>, removeRestErr: Option<Error>)
    ensures var o := StopAndRemoveAllPods(action, finalizersErr, inhibitErr, stopKubeletErr, clientErr, removePodModeErr, removeRestErr);
      && (stopKubeletErr.Some? ==> forall e :: e in o.trace ==> !e.StopAndRemoveSandboxes? && e != NewCRIClient)
      && (StopAndRemoveSandboxes(action, PodNetworkModes) in o.trace <==> stopKubeletErr.None? && clientErr.None?)
      && (StopAndRemoveSandboxes(action, []) in o.trace <==> stopKubeletErr.None? && clientErr.None? && removePodModeErr.None?)
  {
    var o := StopAndRemoveAllPods(action, finalizersErr, inhibitErr, stopKubeletErr, clientErr, removePodModeErr, removeRestErr);
    var prefix := [WaitFinalizers] + Warn(finalizersErr) + [WaitInhibitLock] + Warn(inhibitErr) + [StopService("kubelet")];
    var steps := o.trace[|prefix|..];
    assert o.trace == prefix + steps;
    WaitsTouchNoSandbox(finalizersErr, inhibitErr);
    InConcat(prefix, steps);
  }

  /** The waits and the kubelet stop neither make a CRI client nor remove a sandbox. */
  lemma WaitsTouchNoSandbox(finalizersErr: Option<Error>, inhibitErr: Option<Error>)
    ensures var prefix := [WaitFinalizers] + Warn(finalizersErr) + [WaitInhibitLock] + Warn(inhibitErr) + [StopService("kubelet")];
      forall e :: e in prefix ==> !e.StopAndRemoveSandboxes? && e != NewCRIClient
  {
  }

  lemma InConcat(a: seq<Effect>, b: seq<Effect>)
    ensures forall e :: e in a + b <==> e in a || e in b
  {
  }

  /** The removal of every remaining sandbox only ever comes last, right
      after the removal of POD- and CONTAINER-mode sandboxes, and no other
      removal precedes them. */
  lemma SandboxRemovalOrder(action: StopAction, finalizersErr: Option<Error>, inhibitErr: Option<Error>,
                            stopKubeletErr: Option<Error>, clientErr: Option<Error>,
                            removePodModeErr: Option<Error>, removeRestErr: Option<Error>)
    ensures var o := StopAndRemoveAllPods(action, finalizersErr, inhibitErr, stopKubeletErr, clientErr, removePodModeErr, removeRestErr);
      var n := |o.trace|;
      StopAndRemoveSandboxes(action, []) in o.trace ==>
        && n >= 2 && o.trace[n - 2] == StopAndRemoveSandboxes(action, PodNetworkModes)
        && o.trace[n - 1] == StopAndRemoveSandboxes(action, [])
        && forall k :: 0 <= k < n - 2 ==> !o.trace[k].StopAndRemoveSandboxes?
  {
    var o := StopAndRemoveAllPods(action, finalizersErr, inhibitErr, stopKubeletErr, clientErr, removePodModeErr, removeRestErr);
    var prefix := [WaitFinalizers] + Warn(finalizersErr) + [WaitInhibitLock] + Warn(inhibitErr) + [StopService("kubelet")];
    var steps := o.trace[|prefix|..];
    assert o.trace == prefix + steps;
    WaitsTouchNoSandbox(finalizersErr, inhibitErr);
    InConcat(prefix, steps);
    if StopAndRemoveSandboxes(action, []) in o.trace {
      assert StopAndRemoveSandboxes(action, []) !in prefix;
      assert stopKubeletErr.None? && clientErr.None? && removePodModeErr.None?;
      assert steps == [NewCRIClient, StopAndRemoveSandboxes(action, PodNetworkModes), StopAndRemoveSandboxes(action, [])];
      forall k | 0 <= k < |o.trace| - 2 ensures !o.trace[k].StopAndRemoveSandboxes? {
        if k < |prefix| {
          assert o.trace[k] == prefix[k] && prefix[k] in prefix;
        } else {
          assert o.trace[k] == steps[0];
        }
      }
    }
  }
}
