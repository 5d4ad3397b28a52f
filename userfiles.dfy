/** WriteUserFiles: the machine configuration's extra files are written one
    by one. Per-file failures are accumulated and the loop goes on; a
    "create" outside /var aborts the task. Files outside /var are written
    under /var and bind-mounted read-only over their own path, except
    static-pod manifests, which are written in place. */
module UserFiles {
  import opened Common
  import opened Strings

  /** constants.ManifestsDirectory. */
  const ManifestsDirectory: string := "/etc/kubernetes/manifests"

  /** One extra file of the machine configuration. */
  datatype UserFile = UserFile(path: string, content: string, op: string, perm: nat)

  /** The file-system calls the task makes, as oracles keyed by path. */
  datatype FileOps = FileOps(
    stat: string -> Stat,
    read: string -> Result<string, Error>,
    mkdirAll: string -> Option<Error>,
    write: string -> Option<Error>,
    chmod: string -> Option<Error>,
    bindMount: string -> Option<Error>)

  /** existsAndIsFile: nil exactly for an existing regular file. */
  function ExistsAndIsFile(path: string, stat: Stat): (r: Option<Error>)
    ensures r.None? <==> stat.Exists? && stat.regular
    ensures stat.NotExist? ==> r == Some(FileMustExist(path))
    ensures stat.StatError? ==> r == Some(stat.err)
    ensures stat.Exists? && !stat.regular ==> r == Some(InvalidFileMode(stat.mode))
  {
    match stat
    case NotExist => Some(FileMustExist(path))
    case StatError(e) => Some(e)
    case Exists(regular, mode) => if regular then None else Some(InvalidFileMode(mode))
  }

  /** How one file ends: written, failed with an error that is recorded, or
      aborting the whole task. */
  datatype FileResult = Written | Failed(err: Error) | Aborted(err: Error)

  datatype Placement = Placement(trace: seq<Effect>, result: FileResult)

  /** The path the content is written to: the path itself inside /var,
      the same path under /var otherwise. */
  function Target(path: string): string
  {
    if FirstComponent(path) == "var" then path else Join("/var", path)
  }

  /** The content to write, or the error that skips the file, per operation. */
  function Content(fs: FileOps, f: UserFile): (r: Result<string, Error>)
  {
    if f.op == "create" then Ok(f.content)
    else if f.op == "overwrite" then
      match ExistsAndIsFile(f.path, fs.stat(f.path))
      case Some(e) => Err(e)
      case None => Ok(f.content)
    else if f.op == "append" then
      match ExistsAndIsFile(f.path, fs.stat(f.path))
      case Some(e) => Err(e)
      case None =>
        match fs.read(f.path)
        case Err(e) => Err(e)
        case Ok(existing) => Ok(existing + "\n" + f.content)
    else Err(UnknownFileOperation(f.path, f.op))
  }

  /** Write, then chmod, the content at p; the first failure is the result. */
  function WriteAndChmod(fs: FileOps, p: string, content: string, perm: nat): Placement
  {
    match fs.write(p)
    case Some(e) => Placement([WriteFile(p, content, perm)], Failed(e))
    case None =>
      match fs.chmod(p)
      case Some(e) => Placement([WriteFile(p, content, perm), Chmod(p, perm)], Failed(e))
      case None => Placement([WriteFile(p, content, perm), Chmod(p, perm)], Written)
  }

  /** Make the directory of p, write and chmod p, and, for a file
      redirected into /var, bind-mount p read-only over its original path. */
  function Stage(fs: FileOps, p: string, original: string, mount: bool, content: string, perm: nat): Placement
  {
    var made := MkdirAll(Dir(p));
    var written := WriteFile(p, content, perm);
    var chmodded := Chmod(p, perm);
    var mounted := BindMountReadOnly(p, original);
    match fs.mkdirAll(Dir(p))
    case Some(e) => Placement([made], Failed(e))
    case None =>
      match fs.write(p)
      case Some(e) => Placement([made, written], Failed(e))
      case None =>
        match fs.chmod(p)
        case Some(e) => Placement([made, written, chmodded], Failed(e))
        case None =>
          if !mount then Placement([made, written, chmodded], Written)
          else
            match fs.bindMount(p)
            case Some(e) => Placement([made, written, chmodded, mounted], Failed(Wrapped("failed to create bind mount for " + p, e)))
            case None => Placement([made, written, chmodded, mounted], Written)
  }

  /** Where and how a file whose content is known is placed. */
  function PlaceContent(fs: FileOps, f: UserFile, content: string): Placement
  {
    if Dir(f.path) == ManifestsDirectory then WriteAndChmod(fs, f.path, content, f.perm)
    else
      var inVar := FirstComponent(f.path) == "var";
      if !inVar && f.op == "create" then Placement([], Aborted(CreateOutsideVar(f.path)))
      else Stage(fs, Target(f.path), f.path, !inVar, content, f.perm)
  }

  /** The handling of one file. */
  function PlaceFile(fs: FileOps, f: UserFile): Placement
  {
    match Content(fs, f)
    case Err(e) => Placement([], Failed(e))
    case Ok(content) => PlaceContent(fs, f, content)
  }

  /** The placements of the files, in order. */
  function Placements(fs: FileOps, files: seq<UserFile>): (ps: seq<Placement>)
    ensures |ps| == |files|
    ensures forall k :: 0 <= k < |files| ==> ps[k] == PlaceFile(fs, files[k])
  {
    if files == [] then [] else [PlaceFile(fs, files[0])] + Placements(fs, files[1..])
  }

  /** The state of the loop after a run of files: what was done, the
      errors recorded, and the aborting error if one occurred. */
  datatype Run = Run(trace: seq<Effect>, errors: seq<Error>, abort: Option<Error>)

  /** Files handled in order, by their placements; an abort ends the run. */
  function RunFiles(ps: seq<Placement>): Run
  {
    if ps == [] then Run([], [], None)
    else
      match ps[0].result
      case Aborted(e) => Run(ps[0].trace, [], Some(e))
      case Failed(e) =>
        var r := RunFiles(ps[1..]);
        Run(ps[0].trace + r.trace, [e] + r.errors, r.abort)
      case Written =>
        var r := RunFiles(ps[1..]);
        Run(ps[0].trace + r.trace, r.errors, r.abort)
  }

  /** result.ErrorOrNil(), or the aborting error, which discards what was recorded. */
  function Finish(r: Run): Outcome
  {
    if r.abort.Some? then Outcome(r.abort, r.trace)
    else if r.errors == [] then Outcome(None, r.trace)
    else Outcome(Some(Multi(r.errors)), r.trace)
  }

  /** The whole task. */
  function WriteUserFilesSpec(files: Result<seq<UserFile>, Error>, fs: FileOps): Outcome
  {
    match files
    case Err(e) => Outcome(Some(Wrapped("error generating extra files", e)), [])
    case Ok(fl) => Finish(RunFiles(Placements(fs, fl)))
  }

  /** The errors of the placements that failed, in order. */
  function FailedErrors(ps: seq<Placement>): (es: seq<Error>)
    ensures |es| <= |ps|
  {
    if ps == [] then []
    else (if ps[0].result.Failed? then [ps[0].result.err] else []) + FailedErrors(ps[1..])
  }

  /** The effects of the placements in order. */
  function Traces(ps: seq<Placement>): seq<Effect>
  {
    if ps == [] then [] else ps[0].trace + Traces(ps[1..])
  }

  predicate NoAbort(ps: seq<Placement>)
  {
    forall k :: 0 <= k < |ps| ==> !ps[k].result.Aborted?
  }

  predicate AllWritten(ps: seq<Placement>)
  {
    forall k :: 0 <= k < |ps| ==> ps[k].result.Written?
  }

  /** Without an abort, every file is handled, and the errors recorded are
      those of the failed files, in order. */
  lemma {:induction false} RunWithoutAbort(ps: seq<Placement>)
    requires NoAbort(ps)
    ensures RunFiles(ps) == Run(Traces(ps), FailedErrors(ps), None)
  {
    if ps != [] {
      assert NoAbort(ps[1..]) by {
        forall k | 0 <= k < |ps[1..]| ensures !ps[1..][k].result.Aborted? {
          assert ps[1..][k] == ps[k + 1];
        }
      }
      assert !ps[0].result.Aborted?;
      RunWithoutAbort(ps[1..]);
    }
  }

  /** An abort at file k, the first one, ends the task with that error:
      the files after k are not touched. */
  lemma {:induction false} RunAbortsAt(ps: seq<Placement>, k: nat)
    requires k < |ps| && ps[k].result.Aborted?
    requires NoAbort(ps[..k])
    ensures RunFiles(ps) == Run(Traces(ps[..k + 1]), FailedErrors(ps[..k]), Some(ps[k].result.err))
  {
    if k > 0 {
      assert ps[1..][..k - 1] == ps[..k][1..];
      assert ps[1..][..k] == ps[..k + 1][1..];
      assert ps[1..][k - 1] == ps[k];
      assert NoAbort(ps[1..][..k - 1]) by {
        forall j | 0 <= j < k - 1 ensures !ps[..k][1..][j].result.Aborted? {
          assert ps[..k][1..][j] == ps[..k][j + 1];
        }
      }
      assert ps[..k][0] == ps[0];
      assert !ps[0].result.Aborted?;
      RunAbortsAt(ps[1..], k - 1);
    } else {
      assert ps[..1] == [ps[0]];
      assert Traces([ps[0]]) == ps[0].trace + [];
    }
  }

  lemma {:induction false} FailedErrorsEmpty(ps: seq<Placement>)
    requires NoAbort(ps)
    ensures FailedErrors(ps) == [] <==> AllWritten(ps)
  {
    if ps != [] {
      assert NoAbort(ps[1..]) by {
        forall k | 0 <= k < |ps[1..]| ensures !ps[1..][k].result.Aborted? {
          assert ps[1..][k] == ps[k + 1];
        }
      }
      FailedErrorsEmpty(ps[1..]);
      assert !ps[0].result.Aborted?;
      if AllWritten(ps) {
        assert ps[0].result.Written?;
        assert AllWritten(ps[1..]) by {
          forall k | 0 <= k < |ps[1..]| ensures ps[1..][k].result.Written? {
            assert ps[1..][k] == ps[k + 1];
          }
        }
      }
      if FailedErrors(ps) == [] {
        assert ps[0].result.Written?;
        forall k | 0 <= k < |ps| ensures ps[k].result.Written? {
          if k > 0 { assert ps[k] == ps[1..][k - 1]; }
        }
      }
    }
  }

  /** The index of the first aborting placement, when there is one. */
  function FirstAbort(ps: seq<Placement>): (k: nat)
    requires !NoAbort(ps)
    ensures k < |ps| && ps[k].result.Aborted?
    ensures NoAbort(ps[..k])
  {
    if ps[0].result.Aborted? then 0
    else
      assert !NoAbort(ps[1..]) by {
        var j :| 0 <= j < |ps| && ps[j].result.Aborted?;
        assert ps[1..][j - 1] == ps[j];
      }
      var k := 1 + FirstAbort(ps[1..]);
      assert NoAbort(ps[..k]) by {
        forall j | 0 <= j < k ensures !ps[..k][j].result.Aborted? {
          if j > 0 { assert ps[..k][j] == ps[1..][..k - 1][j - 1]; }
        }
      }
      k
  }

  /** The task succeeds exactly when every file was written; without an
      abort every file is handled and the error gathers the failures in
      order; the first abort ends the task with its own error and nothing
      after it. */
  lemma WriteUserFilesResult(fs: FileOps, files: seq<UserFile>)
    ensures var o := WriteUserFilesSpec(Ok(files), fs);
      var ps := Placements(fs, files);
      && (o.err.None? <==> AllWritten(ps))
      && (NoAbort(ps) ==> o.trace == Traces(ps)
                          && o.err == if FailedErrors(ps) == [] then None else Some(Multi(FailedErrors(ps))))
      && (!NoAbort(ps) ==> var k := FirstAbort(ps);
                           o == Outcome(Some(ps[k].result.err), Traces(ps[..k + 1])))
  {
    var ps := Placements(fs, files);
    if NoAbort(ps) {
      RunWithoutAbort(ps);
      FailedErrorsEmpty(ps);
    } else {
      RunAbortsAt(ps, FirstAbort(ps));
    }
  }

  /** An unknown operation, and an overwrite or append of anything but an
      existing regular file, record an error and touch nothing. */
  lemma RejectedFiles(fs: FileOps, f: UserFile)
    ensures f.op !in {"create", "overwrite", "append"} ==>
      PlaceFile(fs, f) == Placement([], Failed(UnknownFileOperation(f.path, f.op)))
    ensures (f.op == "overwrite" || f.op == "append") && ExistsAndIsFile(f.path, fs.stat(f.path)).Some? ==>
      PlaceFile(fs, f) == Placement([], Failed(ExistsAndIsFile(f.path, fs.stat(f.path)).value))
  {
  }

  /** An append writes the existing content, a newline and the new content. */
  lemma AppendContent(fs: FileOps, f: UserFile)
    requires f.op == "append"
    ensures forall p, c, m :: WriteFile(p, c, m) in PlaceFile(fs, f).trace ==>
      fs.read(f.path).Ok? && c == fs.read(f.path).value + "\n" + f.content
  {
    if Content(fs, f).Ok? {
      PlacedContent(fs, f, Content(fs, f).value);
    }
  }

  /** Whatever is written is the content given. */
  lemma PlacedContent(fs: FileOps, f: UserFile, content: string)
    ensures forall p, c, m :: WriteFile(p, c, m) in PlaceContent(fs, f, content).trace ==> c == content
  {
  }

  /** A static-pod manifest is written and chmod-ed in place: no directory
      is made, nothing is mounted. */
  lemma ManifestsInPlace(fs: FileOps, f: UserFile)
    requires Dir(f.path) == ManifestsDirectory
    ensures var t := PlaceFile(fs, f).trace;
      && (forall e :: e in t ==> (e.WriteFile? || e.Chmod?) && e.perm == f.perm)
      && (forall p, c, m :: WriteFile(p, c, m) in t ==> p == f.path)
      && (forall p, m :: Chmod(p, m) in t ==> p == f.path)
      && !PlaceFile(fs, f).result.Aborted?
  {
  }

  /** Outside a manifests directory, a path whose first component is not
      "var" is written under /var; a "create" of it aborts, and a written
      one ends with its read-only bind mount over the original path. */
  lemma RedirectedIntoVar(fs: FileOps, f: UserFile)
    requires Dir(f.path) != ManifestsDirectory && FirstComponent(f.path) != "var"
    requires Content(fs, f).Ok?
    ensures f.op == "create" ==> PlaceFile(fs, f) == Placement([], Aborted(CreateOutsideVar(f.path)))
    ensures var p := Join("/var", f.path);
      var pl := PlaceFile(fs, f);
      f.op != "create" ==>
        && (forall q, c, m :: WriteFile(q, c, m) in pl.trace ==> q == p)
        && (pl.result.Written? ==> |pl.trace| == 4 && pl.trace[0] == MkdirAll(Dir(p))
                                   && pl.trace[3] == BindMountReadOnly(p, f.path))
  {
  }

  /** A path inside /var is written where it is and never bind-mounted. */
  lemma InVarNotMounted(fs: FileOps, f: UserFile)
    requires Dir(f.path) != ManifestsDirectory && FirstComponent(f.path) == "var"
    ensures forall e :: e in PlaceFile(fs, f).trace ==> !e.BindMountReadOnly?
    ensures forall q, c, m :: WriteFile(q, c, m) in PlaceFile(fs, f).trace ==> q == f.path
    ensures !PlaceFile(fs, f).result.Aborted?
  {
  }

  /** The steps of one file, as the loop body performs them. */
  method WriteOne(fs: FileOps, f: UserFile) returns (trace: seq<Effect>, result: FileResult)
    ensures Placement(trace, result) == PlaceFile(fs, f)
  {
    trace := [];
    var content := f.content;
    if f.op == "create" {
    } else if f.op == "overwrite" {
      var err := ExistsAndIsFile(f.path, fs.stat(f.path));
      if err.Some? {
        return trace, Failed(err.value);
      }
    } else if f.op == "append" {
      var err := ExistsAndIsFile(f.path, fs.stat(f.path));
      if err.Some? {
        return trace, Failed(err.value);
      }
      var existing := fs.read(f.path);
      if existing.Err? {
        return trace, Failed(existing.error);
      }
      content := existing.value + "\n" + f.content;
    } else {
      return trace, Failed(UnknownFileOperation(f.path, f.op));
    }
    assert Content(fs, f) == Ok(content);

    if Dir(f.path) == ManifestsDirectory {
      var err := fs.write(f.path);
      if err.Some? {
        return [WriteFile(f.path, content, f.perm)], Failed(err.value);
      }
      err := fs.chmod(f.path);
      if err.Some? {
        return [WriteFile(f.path, content, f.perm), Chmod(f.path, f.perm)], Failed(err.value);
      }
      return [WriteFile(f.path, content, f.perm), Chmod(f.path, f.perm)], Written;
    }

    var p := f.path;
    var inVar := true;
    if FirstComponent(f.path) != "var" {
      p := Join("/var", f.path);
      inVar := false;
    }
    if !inVar && f.op == "create" {
      return [], Aborted(CreateOutsideVar(f.path));
    }
    assert p == Target(f.path);
    var err := fs.mkdirAll(Dir(p));
    if err.Some? {
      return [MkdirAll(Dir(p))], Failed(err.value);
    }
    err := fs.write(p);
    if err.Some? {
      return [MkdirAll(Dir(p)), WriteFile(p, content, f.perm)], Failed(err.value);
    }
    err := fs.chmod(p);
    if err.Some? {
      return [MkdirAll(Dir(p)), WriteFile(p, content, f.perm), Chmod(p, f.perm)], Failed(err.value);
    }
    if !inVar {
      err := fs.bindMount(p);
      if err.Some? {
        return [MkdirAll(Dir(p)), WriteFile(p, content, f.perm), Chmod(p, f.perm), BindMountReadOnly(p, f.path)],
               Failed(Wrapped("failed to create bind mount for " + p, err.value));
      }
      return [MkdirAll(Dir(p)), WriteFile(p, content, f.perm), Chmod(p, f.perm), BindMountReadOnly(p, f.path)], Written;
    }
    return [MkdirAll(Dir(p)), WriteFile(p, content, f.perm), Chmod(p, f.perm)], Written;
  }

  /** One file of the loop: after an abort nothing else runs; otherwise
      its trace and its error, if any, join what came before. */
  lemma RunStep(ps: seq<Placement>, i: nat, trace: seq<Effect>, errors: seq<Error>)
    requires i < |ps|
    ensures var r := RunFiles(ps[i..]);
      var rest := RunFiles(ps[i + 1..]);
      match ps[i].result
      case Aborted(e) => r == Run(ps[i].trace, [], Some(e))
      case Failed(e) =>
        Run(trace + r.trace, errors + r.errors, r.abort)
          == Run((trace + ps[i].trace) + rest.trace, (errors + [e]) + rest.errors, rest.abort)
      case Written =>
        Run(trace + r.trace, errors + r.errors, r.abort)
          == Run((trace + ps[i].trace) + rest.trace, errors + rest.errors, rest.abort)
  {
    assert ps[i..][1..] == ps[i + 1..];
    var rest := RunFiles(ps[i + 1..]);
    ConcatAssoc(trace, ps[i].trace, rest.trace);
    if ps[i].result.Failed? {
      ConcatAssoc(errors, [ps[i].result.err], rest.errors);
    }
  }

  /** WriteUserFiles: the loop over the files, accumulating errors. */
  method WriteUserFiles(files: Result<seq<UserFile>, Error>, fs: FileOps) returns (o: Outcome)
    ensures o == WriteUserFilesSpec(files, fs)
  {
    if files.Err? {
      return Outcome(Some(Wrapped("error generating extra files", files.error)), []);
    }
    var fl := files.value;
    ghost var ps := Placements(fs, fl);
    var trace: seq<Effect> := [];
    var errors: seq<Error> := [];
    var i := 0;
    while i < |fl|
      invariant 0 <= i <= |fl|
      invariant var r := RunFiles(ps[i..]);
        RunFiles(ps) == Run(trace + r.trace, errors + r.errors, r.abort)
    {
      var t, res := WriteOne(fs, fl[i]);
      assert ps[i] == Placement(t, res);
      RunStep(ps, i, trace, errors);
      trace := trace + t;
      match res
      case Aborted(e) =>
        return Outcome(Some(e), trace);
      case Failed(e) =>
        errors := errors + [e];
        i := i + 1;
      case Written =>
        i := i + 1;
    }
    assert ps[i..] == [];
    assert RunFiles(ps) == Run(trace, errors, None) by {
      assert trace + [] == trace && errors + [] == errors;
    }
    if errors == [] {
      return Outcome(None, trace);
    }
    return Outcome(Some(Multi(errors)), trace);
  }
}
