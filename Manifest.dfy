/**
 * The module manifest `manifest.json`: reading it, stamping it with the
 * target of a build (`updateManifestForTarget`) and registering a new
 * executable in it (`updateManifestExecutable`).
 */
module Manifest {
  import opened Wrappers
  import opened Json
  import opened FileTree
  import opened Targets

  const ManifestFile: string := "manifest.json"

  /**
   * Why the manifest could not be used: it cannot be read, it is not a JSON
   * object, or it is the document `null`, which Go decodes into a nil map
   * that panics on the first assignment or type assertion.
   */
  datatype ManifestError = ReadFailed | Unparsable | NullManifest

  /** A JSON object read from a file. */
  function ReadObject(root: Node, cwd: Path, path: string): Result<Object, ManifestError>
  {
    match StatPath(root, cwd, path)
    case Some(File(_, Doc(JObj(m)))) => Ok(m)
    case Some(File(_, Doc(JNull))) => Err(NullManifest)
    case Some(File(_, _)) => Err(Unparsable)
    case _ => Err(ReadFailed)
  }

  /** `readManifest`. */
  function ReadManifest(root: Node, cwd: Path): Result<Object, ManifestError>
  {
    ReadObject(root, cwd, ManifestFile)
  }

  /** Two trees that hold the same node at a path read the same object there. */
  lemma SameNodeSameObject(a: Node, b: Node, cwd: Path, path: string)
    requires StatPath(a, cwd, path) == StatPath(b, cwd, path)
    ensures ReadObject(a, cwd, path) == ReadObject(b, cwd, path)
  {
  }

  /** A file holding an object reads as that object. */
  lemma ReadObjectOfDoc(root: Node, cwd: Path, path: string, m: Object)
    requires var n := StatPath(root, cwd, path); n.Some? && n.value.File? && n.value.data == Doc(JObj(m))
    ensures ReadObject(root, cwd, path) == Ok(m)
  {
  }

  /** A successful write of an object reads back as that object. */
  lemma WriteThenReadObject(root: Node, cwd: Path, path: string, m: Object, perm: int)
    requires WriteFilePath(root, cwd, path, Doc(JObj(m)), perm).Ok?
    ensures ReadObject(WriteFilePath(root, cwd, path, Doc(JObj(m)), perm).value, cwd, path) == Ok(m)
  {
    WriteThenStat(root, cwd, path, Doc(JObj(m)), perm);
  }

  lemma WriteThenRead(root: Node, cwd: Path, m: Object, perm: int)
    requires WriteFilePath(root, cwd, ManifestFile, Doc(JObj(m)), perm).Ok?
    ensures ReadManifest(WriteFilePath(root, cwd, ManifestFile, Doc(JObj(m)), perm).value, cwd) == Ok(m)
  {
    WriteThenReadObject(root, cwd, ManifestFile, m, perm);
  }

  // ------------------------------------------------ updateManifestForTarget

  /** The manifest of a build for `t` at time `buildTime`. */
  function Stamp(m: Object, t: BuildTarget, buildTime: string): (r: Object)
    ensures r.Keys == m.Keys + {"build_date", "os", "arch"}
    ensures r["build_date"] == JStr(buildTime) && r["os"] == JStr(t.os) && r["arch"] == JStr(t.arch)
    ensures forall k :: k in m && k != "build_date" && k != "os" && k != "arch" ==> r[k] == m[k]
  {
    m["build_date" := JStr(buildTime)]["os" := JStr(t.os)]["arch" := JStr(t.arch)]
  }

  datatype UpdateError = ReadError(reason: ManifestError) | WriteFailed

  /** `updateManifestForTarget` on the file system. */
  function UpdateForTarget(root: Node, cwd: Path, t: BuildTarget, buildTime: string): Result<Node, UpdateError>
  {
    match ReadManifest(root, cwd)
    case Err(e) => Err(ReadError(e))
    case Ok(m) =>
      match WriteFilePath(root, cwd, ManifestFile, Doc(JObj(Stamp(m, t, buildTime))), FilePerm)
      case Err(_) => Err(WriteFailed)
      case Ok(r) => Ok(r)
  }

  /** Stamping the manifest removes no file and keeps the root a directory. */
  lemma UpdateKeepsFiles(root: Node, cwd: Path, t: BuildTarget, buildTime: string, s: string)
    requires IsFile(StatPath(root, cwd, s))
    ensures var u := UpdateForTarget(root, cwd, t, buildTime);
      u.Ok? ==> IsFile(StatPath(u.value, cwd, s)) && (root.Dir? ==> u.value.Dir?)
  {
    if UpdateForTarget(root, cwd, t, buildTime).Ok? {
      var m := ReadManifest(root, cwd).value;
      WritePathKeepsFiles(root, cwd, ManifestFile, Doc(JObj(Stamp(m, t, buildTime))), FilePerm, s);
    }
  }

  /**
   * `updateManifestForTarget`: reads the manifest, assigns the three build
   * keys and writes the whole object back.
   */
  method UpdateManifestForTarget(d: Disk, t: BuildTarget, buildTime: string) returns (err: Option<UpdateError>)
    requires d.Valid()
    modifies d
    ensures d.Valid()
    ensures var u := UpdateForTarget(old(d.root), d.cwd, t, buildTime);
      err == (if u.Ok? then None else Some(u.error)) && d.root == (if u.Ok? then u.value else old(d.root))
  {
    var read := ReadManifest(d.root, d.cwd);
    if read.Err? {
      return Some(ReadError(read.error));
    }
    var m := read.value;
    m := m["build_date" := JStr(buildTime)];
    m := m["os" := JStr(t.os)];
    m := m["arch" := JStr(t.arch)];
    var ok := d.WriteFile(ManifestFile, Doc(JObj(m)), FilePerm);
    if !ok {
      return Some(WriteFailed);
    }
    return None;
  }

  /**
   * After a stamp the manifest reads back with the three build keys set and
   * every other key, `executable` included, as it was.
   */
  lemma StampRoundTrip(root: Node, cwd: Path, t: BuildTarget, buildTime: string)
    requires UpdateForTarget(root, cwd, t, buildTime).Ok?
    ensures var m := ReadManifest(root, cwd).value;
      var after := ReadManifest(UpdateForTarget(root, cwd, t, buildTime).value, cwd);
      after.Ok? && after.value == Stamp(m, t, buildTime) &&
      ("executable" in m ==> after.value["executable"] == m["executable"])
  {
    var m := ReadManifest(root, cwd).value;
    WriteThenRead(root, cwd, Stamp(m, t, buildTime), FilePerm);
  }

  // ----------------------------------------------- updateManifestExecutable

  /** The executable name: ".exe" is added exactly when the manifest's `os` is the string "windows". */
  function ExecutableFileName(m: Object, name: string): string
  {
    if "os" in m && m["os"] == JStr("windows") then name + ".exe" else name
  }

  /** The path registered for `name`. */
  function ExecutableEntry(m: Object, name: string): string
  {
    "./bin/" + ExecutableFileName(m, name)
  }

  /** The `executable` list; missing or not a list counts as empty. */
  function Executables(m: Object): seq<Value>
  {
    if "executable" in m && m["executable"].JArr? then m["executable"].items else []
  }

  /**
   * The manifest after registering `name`, or `None` when the entry is
   * already listed and nothing is written.
   */
  function Register(m: Object, name: string): Option<Object>
  {
    var e := JStr(ExecutableEntry(m, name));
    if e in Executables(m) then None
    else Some(m["executable" := JArr(Executables(m) + [e])])
  }

  /**
   * A registration appends the entry at the end of the list, keeps the
   * earlier entries (whatever their kind) in order and changes no other key.
   */
  lemma RegisterAppends(m: Object, name: string)
    requires Register(m, name).Some?
    ensures var r := Register(m, name).value;
      r.Keys == m.Keys + {"executable"} &&
      (forall k :: k in m && k != "executable" ==> r[k] == m[k]) &&
      Executables(r) == Executables(m) + [JStr(ExecutableEntry(m, name))] &&
      ExecutableEntry(r, name) == ExecutableEntry(m, name)
  {
  }

  /**
   * Registering is idempotent: registering the same name again changes
   * nothing, and after a registration the list holds the entry exactly once
   * more than before, that is once.
   */
  lemma RegisterIdempotent(m: Object, name: string)
    ensures var r := Register(m, name);
      r.Some? ==> (Register(r.value, name).None? &&
        multiset(Executables(r.value))[JStr(ExecutableEntry(m, name))] == 1)
    ensures Register(m, name).None? <==> JStr(ExecutableEntry(m, name)) in Executables(m)
  {
    var e := JStr(ExecutableEntry(m, name));
    if Register(m, name).Some? {
      var r := Register(m, name).value;
      assert Executables(r) == Executables(m) + [e];
      assert e in Executables(r);
      assert multiset(Executables(r)) == multiset(Executables(m)) + multiset{e};
      assert multiset(Executables(m))[e] == 0;
    }
  }

  /** A manifest without a usable list ends up with the one-element list. */
  lemma RegisterIntoMissingList(m: Object, name: string)
    requires !("executable" in m && m["executable"].JArr?)
    ensures Register(m, name) == Some(m["executable" := JArr([JStr(ExecutableEntry(m, name))])])
  {
    assert [] + [JStr(ExecutableEntry(m, name))] == [JStr(ExecutableEntry(m, name))];
  }

  /** The scan of `updateManifestExecutable` over the existing list. */
  method RegisterExecutable(m: Object, name: string) returns (r: Option<Object>)
    ensures r == Register(m, name)
  {
    var executables: seq<Value>;
    if "executable" in m && m["executable"].JArr? {
      executables := m["executable"].items;
    } else {
      executables := [];
    }
    var executableName := name;
    if "os" in m && m["os"].JStr? && m["os"].s == "windows" {
      executableName := executableName + ".exe";
    }
    var entry := "./bin/" + executableName;
    for i := 0 to |executables|
      invariant forall j :: 0 <= j < i ==> executables[j] != JStr(entry)
    {
      if executables[i].JStr? && executables[i].s == entry {
        return None;
      }
    }
    executables := executables + [JStr(entry)];
    return Some(m["executable" := JArr(executables)]);
  }

  datatype RegisterError = ManifestRead(reason: ManifestError) | ManifestWrite

  /** `updateManifestExecutable` on the file system. */
  function RegisterOnDisk(root: Node, cwd: Path, name: string): Result<Node, RegisterError>
  {
    match ReadManifest(root, cwd)
    case Err(e) => Err(ManifestRead(e))
    case Ok(m) =>
      match Register(m, name)
      case None => Ok(root)
      case Some(m') =>
        match WriteFilePath(root, cwd, ManifestFile, Doc(JObj(m')), FilePerm)
        case Err(_) => Err(ManifestWrite)
        case Ok(r) => Ok(r)
  }

  /** `updateManifestExecutable`: an unusable manifest is an error and nothing is written. */
  method UpdateManifestExecutable(d: Disk, name: string) returns (err: Option<RegisterError>)
    requires d.Valid()
    modifies d
    ensures d.Valid()
    ensures var u := RegisterOnDisk(old(d.root), d.cwd, name);
      err == (if u.Ok? then None else Some(u.error)) && d.root == (if u.Ok? then u.value else old(d.root))
  {
    var read := ReadManifest(d.root, d.cwd);
    if read.Err? {
      return Some(ManifestRead(read.error));
    }
    var updated := RegisterExecutable(read.value, name);
    if updated.None? {
      return None;
    }
    var ok := d.WriteFile(ManifestFile, Doc(JObj(updated.value)), FilePerm);
    if !ok {
      return Some(ManifestWrite);
    }
    return None;
  }

  /**
   * On disk, a second registration of the same name is a no-op, and the
   * manifest then reads back with the entry listed.
   */
  lemma RegisterOnDiskIdempotent(root: Node, cwd: Path, name: string)
    requires RegisterOnDisk(root, cwd, name).Ok?
    ensures var r := RegisterOnDisk(root, cwd, name).value;
      RegisterOnDisk(r, cwd, name) == Ok(r) &&
      ReadManifest(r, cwd).Ok? &&
      JStr(ExecutableEntry(ReadManifest(root, cwd).value, name)) in Executables(ReadManifest(r, cwd).value)
  {
    var m := ReadManifest(root, cwd).value;
    RegisterIdempotent(m, name);
    if Register(m, name).Some? {
      var m' := Register(m, name).value;
      WriteThenRead(root, cwd, m', FilePerm);
      RegisterAppends(m, name);
    }
  }
}
