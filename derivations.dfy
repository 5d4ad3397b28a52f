/** Small configuration derivations: the services started per machine type,
    the mount options of the STATE partition, and the version and ID of
    /etc/os-release. */
module Derivations {
  import opened Common
  import opened Strings

  /** machine.Type. */
  datatype MachineType = Init | ControlPlane | Worker | UnknownType

  /** The services StartAllServices loads and starts for a machine type,
      or None where the Go code panics on an unexpected type. */
  function ServiceList(t: MachineType): Option<seq<Service>>
  {
    match t
    case Init => Some([CRI, Trustd, Etcd(true)])
    case ControlPlane => Some([CRI, Trustd, Etcd(false)])
    case Worker => Some([CRI])
    case UnknownType => None
  }

  /** StartAllServices up to the wait for the services: fire Activate, load
      kubelet without starting it, load and start the type's services; the
      wait's result is returned. None: the task panics. */
  function StartAllServices(t: MachineType, waitErr: Option<Error>): Option<Outcome>
  {
    match ServiceList(t)
    case None => None
    case Some(list) => Some(Outcome(waitErr, [FireEvent(Activate), LoadServices([Kubelet]), LoadAndStartServices(list)]))
  }

  /** The service selection: Activate fires first; kubelet is loaded and
      never started here; the runtime always starts, first; trustd and
      etcd start exactly on control-plane nodes, etcd bootstrapping exactly
      on the init node; an unknown type panics. */
  lemma ServiceSelection(t: MachineType, waitErr: Option<Error>)
    ensures StartAllServices(t, waitErr).None? <==> t == UnknownType
    ensures var o := StartAllServices(t, waitErr);
      o.Some? ==>
        && o.value.err == waitErr
        && |o.value.trace| == 3 && o.value.trace[0] == FireEvent(Activate)
        && o.value.trace[1] == LoadServices([Kubelet])
        && o.value.trace[2].LoadAndStartServices?
        && var list := o.value.trace[2].services;
        && |list| >= 1 && list[0] == CRI && Kubelet !in list
        && (Trustd in list <==> t == Init || t == ControlPlane)
        && (Etcd(true) in list <==> t == Init)
        && (Etcd(false) in list <==> t == ControlPlane)
        && (t == Worker ==> list == [CRI])
  {
  }

  /** mount.Flags. */
  datatype MountFlag = SkipIfMounted | SkipIfNoFilesystem

  /** An encryption configuration, opaque here. */
  datatype Encryption = Encryption(spec: string)

  /** The options MountStatePartition passes to the partition mount. */
  datatype MountOptions = MountOptions(flags: set<MountFlag>, encryption: Option<Encryption>)

  /** MountStatePartition's choice of options. metaErr: opening META failed;
      configEncryption: the configuration's STATE encryption, None without a
      configuration; metaTag: the META encryption tag, None when absent, else
      the result of decoding it. */
  function StateMountOptions(sq: Sequence, metaErr: Option<Error>, configEncryption: Option<Encryption>,
                             metaTag: Option<Result<Encryption, Error>>): Result<MountOptions, Error>
  {
    if metaErr.Some? then Err(metaErr.value)
    else
      var flags := {SkipIfMounted} + (if sq == Initialize then {SkipIfNoFilesystem} else {});
      if configEncryption.Some? then Ok(MountOptions(flags, configEncryption))
      else
        match metaTag
        case None => Ok(MountOptions(flags, None))
        case Some(Err(e)) => Err(e)
        case Some(Ok(enc)) => Ok(MountOptions(flags, Some(enc)))
  }

  /** The mount is always skipped when already mounted, and skipped on a
      missing file system exactly in the Initialize sequence. */
  lemma StateMountFlags(sq: Sequence, metaErr: Option<Error>, configEncryption: Option<Encryption>,
                        metaTag: Option<Result<Encryption, Error>>)
    ensures var r := StateMountOptions(sq, metaErr, configEncryption, metaTag);
      r.Ok? ==> SkipIfMounted in r.value.flags && (SkipIfNoFilesystem in r.value.flags <==> sq == Initialize)
  {
  }

  /** The configuration's encryption wins over META, whose tag is then not
      even decoded; without it, the META tag is used, and a tag that does not
      decode fails the task; a failure to open META fails it first. */
  lemma StateEncryptionPriority(sq: Sequence, metaErr: Option<Error>, configEncryption: Option<Encryption>,
                                metaTag: Option<Result<Encryption, Error>>)
    ensures var r := StateMountOptions(sq, metaErr, configEncryption, metaTag);
      && (metaErr.Some? ==> r == Err(metaErr.value))
      && (metaErr.None? && configEncryption.Some? ==> r.Ok? && r.value.encryption == configEncryption)
      && (metaErr.None? && configEncryption.None? ==>
            match metaTag
            case None => r.Ok? && r.value.encryption.None?
            case Some(Err(e)) => r == Err(e)
            case Some(Ok(enc)) => r.Ok? && r.value.encryption == Some(enc))
    ensures forall tag: Option<Result<Encryption, Error>> :: metaErr.None? && configEncryption.Some? ==>
      StateMountOptions(sq, metaErr, configEncryption, tag) == StateMountOptions(sq, metaErr, configEncryption, None)
  {
  }

  /** The /etc/os-release fields the template receives. */
  datatype OSReleaseFields = OSReleaseFields(name: string, id: string, version: string)

  /** OSRelease: the version is the commit SHA for an untagged build and the
      tag otherwise; the ID is the lower-cased name. */
  function OSRelease(name: string, tag: string, sha: string): OSReleaseFields
  {
    OSReleaseFields(name, ToLower(name), if tag == "none" then sha else tag)
  }

  lemma {:induction false} ToLowerIdempotent(s: string)
    ensures ToLower(ToLower(s)) == ToLower(s)
  {
    if s != [] {
      ToLowerIdempotent(s[1..]);
      assert ToLower(s)[1..] == ToLower(s[1..]);
    }
  }

  /** The version names the build: its tag, or its SHA when the tag is
      "none"; the ID is the name, lower-cased letter by letter, and holds no
      upper-case ASCII letter. */
  lemma OSReleaseDerivation(name: string, tag: string, sha: string)
    ensures var r := OSRelease(name, tag, sha);
      && (r.version == sha <== tag == "none")
      && (tag != "none" ==> r.version == tag)
      && |r.id| == |r.name| && r.name == name
      && (forall i :: 0 <= i < |r.id| ==> r.id[i] == LowerChar(name[i]) && !('A' <= r.id[i] <= 'Z'))
      && ToLower(r.id) == r.id
  {
    ToLowerIdempotent(name);
  }
}
