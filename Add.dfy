/**
 * The `add` command: it refuses to run outside a project or without a name,
 * creates `cmd/<name>/main.go` unless it already exists, and registers the
 * executable in the manifest.
 */
module Add {
  import opened Wrappers
  import opened Json
  import Paths
  import opened FileTree
  import opened Manifest
  import opened Discovery

  /** The `main.go` template written for a new entry point (its text is not modelled). */
  function MainTemplate(name: string): Data
  {
    Blob("cmd main.go: " + name)
  }

  datatype CreateError = CmdDirFailed | ExecDirFailed | TemplateWriteFailed

  /**
   * `createExecutableInCmd`: creates `cmd` and `cmd/<name>`, then writes the
   * template unless `cmd/<name>/main.go` already exists.  A directory created
   * before a failure stays.
   */
  function CreateInCmd(root: Node, cwd: Path, name: string): (Node, Option<CreateError>)
  {
    match MkdirAllPath(root, cwd, CmdDir)
    case Err(_) => (root, Some(CmdDirFailed))
    case Ok(withCmd) =>
      match MkdirAllPath(withCmd, cwd, Paths.Join(CmdDir, name))
      case Err(_) => (withCmd, Some(ExecDirFailed))
      case Ok(withDir) =>
        if StatPath(withDir, cwd, MainGoPath(name)).Some? then (withDir, None)
        else match WriteFilePath(withDir, cwd, MainGoPath(name), MainTemplate(name), FilePerm)
          case Err(_) => (withDir, Some(TemplateWriteFailed))
          case Ok(written) => (written, None)
  }

  method CreateExecutableInCmd(d: Disk, name: string) returns (err: Option<CreateError>)
    requires d.Valid()
    modifies d
    ensures d.Valid()
    ensures (d.root, err) == CreateInCmd(old(d.root), d.cwd, name)
  {
    var ok := d.MkdirAll(CmdDir);
    if !ok {
      return Some(CmdDirFailed);
    }
    var execDir := Paths.Join(CmdDir, name);
    ok := d.MkdirAll(execDir);
    if !ok {
      return Some(ExecDirFailed);
    }
    var mainGoPath := Paths.Join(execDir, "main.go");
    if d.Stat(mainGoPath).Some? {
      return None;
    }
    ok := d.WriteFile(mainGoPath, MainTemplate(name), FilePerm);
    if !ok {
      return Some(TemplateWriteFailed);
    }
    return None;
  }

  /**
   * No existing file is overwritten: every file, an existing
   * `cmd/<name>/main.go` included, is exactly as it was, whether the call
   * succeeds or not; and on success `cmd/<name>/main.go` exists.
   */
  lemma CreateInCmdKeepsFiles(root: Node, cwd: Path, name: string, s: string)
    ensures var (r, err) := CreateInCmd(root, cwd, name);
      (IsFile(StatPath(root, cwd, s)) ==> StatPath(r, cwd, s) == StatPath(root, cwd, s)) &&
      (err.None? ==> StatPath(r, cwd, MainGoPath(name)).Some?)
  {
    var m1 := MkdirAllPath(root, cwd, CmdDir);
    if m1.Ok? {
      if IsFile(StatPath(root, cwd, s)) {
        MkdirAllPathKeepsFiles(root, cwd, CmdDir, s);
      }
      var m2 := MkdirAllPath(m1.value, cwd, Paths.Join(CmdDir, name));
      if m2.Ok? {
        if IsFile(StatPath(root, cwd, s)) {
          MkdirAllPathKeepsFiles(m1.value, cwd, Paths.Join(CmdDir, name), s);
        }
        var path := MainGoPath(name);
        var w := WriteFilePath(m2.value, cwd, path, MainTemplate(name), FilePerm);
        if StatPath(m2.value, cwd, path).None? && w.Ok? {
          WriteThenStat(m2.value, cwd, path, MainTemplate(name), FilePerm);
          if IsFile(StatPath(root, cwd, s)) {
            WriteNewPathKeepsFiles(m2.value, cwd, path, MainTemplate(name), FilePerm, s);
          }
        }
      }
    }
  }

  datatype AddError =
    | NotAProject
    | NameRequired
    | CreateFailed(cause: CreateError)
    | ManifestFailed(reason: RegisterError)

  /**
   * What `add` ends with: the executable added, an error message, or a
   * panic (a manifest holding `null` decodes to a nil map, and the
   * registration assigns into it).
   */
  datatype AddOutcome = Added | Rejected(error: AddError) | Crashed

  /** `addCmd.Run` for the argument `name` (the empty string when none is given). */
  function AddRun(root: Node, cwd: Path, name: string): (Node, AddOutcome)
  {
    if StatPath(root, cwd, ManifestFile).None? then (root, Rejected(NotAProject))
    else if name == "" then (root, Rejected(NameRequired))
    else
      var (created, err) := CreateInCmd(root, cwd, name);
      if err.Some? then (created, Rejected(CreateFailed(err.value)))
      else RegisterStep(created, cwd, name)
  }

  /** The registration that ends `add`. */
  function RegisterStep(root: Node, cwd: Path, name: string): (Node, AddOutcome)
  {
    var u := RegisterOnDisk(root, cwd, name);
    if u == Err(ManifestRead(NullManifest)) then (root, Crashed)
    else if u.Err? then (root, Rejected(ManifestFailed(u.error)))
    else (u.value, Added)
  }

  method Register(d: Disk, name: string) returns (outcome: AddOutcome)
    requires d.Valid()
    modifies d
    ensures d.Valid()
    ensures (d.root, outcome) == RegisterStep(old(d.root), d.cwd, name)
  {
    var failed := UpdateManifestExecutable(d, name);
    if failed == Some(ManifestRead(NullManifest)) {
      return Crashed;
    }
    if failed.Some? {
      return Rejected(ManifestFailed(failed.value));
    }
    return Added;
  }

  method AddExecutable(d: Disk, name: string) returns (outcome: AddOutcome)
    requires d.Valid()
    modifies d
    ensures d.Valid()
    ensures (d.root, outcome) == AddRun(old(d.root), d.cwd, name)
  {
    if d.Stat(ManifestFile).None? {
      return Rejected(NotAProject);
    }
    if name == "" {
      return Rejected(NameRequired);
    }
    var err := CreateExecutableInCmd(d, name);
    if err.Some? {
      return Rejected(CreateFailed(err.value));
    }
    outcome := Register(d, name);
  }

  /** The registration ends `add` in success, a crash or a manifest error, nothing else. */
  lemma RegisterStepOutcome(root: Node, cwd: Path, name: string)
    ensures var o := RegisterStep(root, cwd, name).1;
      o == Added || o == Crashed || (o.Rejected? && o.error.ManifestFailed?)
  {
  }

  /**
   * The gates: outside a project, or without a name, `add` is rejected
   * before anything is created; and it is rejected for either reason only
   * then.
   */
  lemma AddGates(root: Node, cwd: Path, name: string)
    ensures var (r, outcome) := AddRun(root, cwd, name);
      (StatPath(root, cwd, ManifestFile).None? ==> r == root && outcome == Rejected(NotAProject)) &&
      (StatPath(root, cwd, ManifestFile).Some? && name == "" ==> r == root && outcome == Rejected(NameRequired)) &&
      (outcome == Rejected(NotAProject) ==> StatPath(root, cwd, ManifestFile).None?) &&
      (outcome == Rejected(NameRequired) ==> name == "")
  {
    if StatPath(root, cwd, ManifestFile).Some? && name != "" {
      var (created, err) := CreateInCmd(root, cwd, name);
      if err.None? {
        RegisterStepOutcome(created, cwd, name);
        assert AddRun(root, cwd, name).1 == RegisterStep(created, cwd, name).1;
      }
    }
  }

  /**
   * A registration that ends `add` successfully leaves the entry of `name`
   * listed in the manifest, so that registering it again writes nothing.
   */
  lemma RegisterStepAdds(root: Node, cwd: Path, name: string)
    ensures var (r, outcome) := RegisterStep(root, cwd, name);
      outcome == Added ==>
        ReadManifest(root, cwd).Ok? && ReadManifest(r, cwd).Ok? &&
        JStr(ExecutableEntry(ReadManifest(root, cwd).value, name)) in Executables(ReadManifest(r, cwd).value) &&
        RegisterOnDisk(r, cwd, name) == Ok(r)
  {
    if RegisterOnDisk(root, cwd, name).Ok? {
      RegisterOnDiskIdempotent(root, cwd, name);
    }
  }

  /** `add` succeeds only through a registration after the entry point is in place. */
  lemma AddRunAdded(root: Node, cwd: Path, name: string)
    ensures AddRun(root, cwd, name).1 == Added ==>
      name != "" && CreateInCmd(root, cwd, name).1.None? &&
      AddRun(root, cwd, name) == RegisterStep(CreateInCmd(root, cwd, name).0, cwd, name)
  {
  }

  /** Creating the entry point leaves a manifest that is a file as it reads. */
  lemma CreateInCmdKeepsManifest(root: Node, cwd: Path, name: string)
    requires IsFile(StatPath(root, cwd, ManifestFile))
    ensures ReadManifest(CreateInCmd(root, cwd, name).0, cwd) == ReadManifest(root, cwd)
  {
    var r := CreateInCmd(root, cwd, name).0;
    CreateInCmdKeepsFiles(root, cwd, name, ManifestFile);
    SameNodeSameObject(r, root, cwd, ManifestFile);
  }

  /**
   * After a successful `add` in a project whose manifest is a file, the
   * manifest lists `./bin/<name>` (".exe" added for a windows manifest) as
   * the manifest read before the command decides, and a second `add` of the
   * same name would find it listed and write nothing.
   */
  lemma AddRegisters(root: Node, cwd: Path, name: string)
    requires IsFile(StatPath(root, cwd, ManifestFile))
    ensures var (r, outcome) := AddRun(root, cwd, name);
      outcome == Added ==>
        ReadManifest(root, cwd).Ok? && ReadManifest(r, cwd).Ok? &&
        JStr(ExecutableEntry(ReadManifest(root, cwd).value, name)) in Executables(ReadManifest(r, cwd).value) &&
        RegisterOnDisk(r, cwd, name) == Ok(r)
  {
    AddRunAdded(root, cwd, name);
    var created := CreateInCmd(root, cwd, name).0;
    RegisterStepAdds(created, cwd, name);
    CreateInCmdKeepsManifest(root, cwd, name);
  }
}
