/**
 * The `create` command in its non-interactive form: the flags are completed
 * with defaults, then `createProject` lays out the project directory, its
 * five subdirectories and its six files, stopping at the first failure.
 */
module Create {
  import opened Wrappers
  import opened Json
  import Paths
  import opened FileTree
  import opened Manifest
  import opened Assets

  /** `ProjectConfig`: what the flags (or the prompt) supply. */
  datatype ProjectConfig = ProjectConfig(name: string, description: string, version: string, author: string)

  const DefaultDescription: string := "A dsserv module"
  const DefaultVersion: string := "1.0.0"
  const DefaultAuthor: string := "DataShell Team"

  datatype ConfigError = NameRequired

  /** A flag's value, or the default when the flag was left empty. */
  function OrDefault(flag: string, default: string): string
  {
    if flag == "" then default else flag
  }

  /**
   * The non-interactive branch of `create`: without a project name it stops
   * with an error before anything is created; otherwise each empty flag takes
   * its default and each given flag is kept.
   */
  function NonInteractiveConfig(name: string, description: string, version: string, author: string): (r: Result<ProjectConfig, ConfigError>)
    ensures r.Err? <==> name == ""
    ensures r.Ok? ==> (r.value.name == name &&
      r.value.description != "" && r.value.version != "" && r.value.author != "" &&
      (description != "" ==> r.value.description == description) &&
      (version != "" ==> r.value.version == version) &&
      (author != "" ==> r.value.author == author) &&
      (description == "" ==> r.value.description == DefaultDescription) &&
      (version == "" ==> r.value.version == DefaultVersion) &&
      (author == "" ==> r.value.author == DefaultAuthor))
  {
    if name == "" then Err(NameRequired)
    else Ok(ProjectConfig(name, OrDefault(description, DefaultDescription),
      OrDefault(version, DefaultVersion), OrDefault(author, DefaultAuthor)))
  }

  // ---------------------------------------------------------- createManifest

  /** The `ManifestData` of a new project, as decoded from the file `createManifest` writes. */
  function InitialManifest(c: ProjectConfig, buildDate: string): Object
  {
    map[
      "name" := JStr(c.name),
      "description" := JStr(c.description),
      "version" := JStr(c.version),
      "manifest_version" := JNum(1),
      "author" := JStr(c.author),
      "build_date" := JStr(buildDate),
      "os" := JStr("linux"),
      "arch" := JStr("amd64"),
      "log_dir" := JStr("./logs"),
      "executable" := JArr([JStr("./bin/" + c.name)])
    ]
  }

  /**
   * A new manifest names the project with a string (so `build` can read the
   * name), targets linux/amd64, and lists exactly the project's own binary,
   * which is the entry `add` would register for the project name: adding it
   * changes nothing.  Stamping the manifest for any build target keeps that
   * list, for a windows target too.
   */
  lemma InitialManifestFacts(c: ProjectConfig, buildDate: string, t: Targets.BuildTarget, buildTime: string)
    ensures var m := InitialManifest(c, buildDate);
      HasString(m, "name", c.name) &&
      HasString(m, "os", "linux") && HasString(m, "arch", "amd64") &&
      m["manifest_version"] == JNum(1) &&
      ExecutableEntry(m, c.name) == "./bin/" + c.name &&
      Executables(m) == [JStr(ExecutableEntry(m, c.name))] &&
      Register(m, c.name).None? &&
      Executables(Stamp(m, t, buildTime)) == Executables(m)
  {
  }

  // ------------------------------------------------------- createDscliConfig

  const InitialAssets: seq<string> := ["config/", "templates/"]
  const InitialExcludes: seq<string> := ["*.log", "*.tmp", ".git/"]

  /** The document `createDscliConfig` writes to `.dscli.json`. */
  function InitialDscliConfig(): Value
  {
    JObj(map[
      "assets" := JArr(Strings(InitialAssets)),
      "excludes" := JArr(Strings(InitialExcludes)),
      "output_dir" := JStr("dist")
    ])
  }

  /**
   * The file `create` writes is one `build` accepts as it stands: it decodes
   * to the two asset directories, each copied under its own name, the three
   * exclude patterns, and the output directory "dist".
   */
  lemma InitialDscliConfigDecodes()
    ensures DecodeBuildConfig(InitialDscliConfig()) ==
      Ok(BuildConfig(JArr(Strings(InitialAssets)), InitialExcludes, "dist"))
    ensures ParseAssetsSpec(JArr(Strings(InitialAssets))) ==
      Ok([AssetConfig("config/", "config/"), AssetConfig("templates/", "templates/")])
  {
    StringListRoundTrip(InitialExcludes);
    StringAssets(InitialAssets);
    var assets := ParseAssetsSpec(JArr(Strings(InitialAssets))).value;
    assert assets[0] == AssetConfig("config/", "config/");
    assert assets[1] == AssetConfig("templates/", "templates/");
    assert assets == [AssetConfig("config/", "config/"), AssetConfig("templates/", "templates/")];
  }

  // ----------------------------------------------------------- createProject

  /** The subdirectories, in the order they are created. */
  const Subdirs: seq<string> := ["cmd", "internal", "pkg", "logs", "bin"]

  /** A file of the new project: its name in the project directory, contents and creation mode. */
  datatype FileSpec = FileSpec(name: string, data: Data, perm: int)

  /**
   * The files, in the order they are written: `go.mod`, `.gitignore`,
   * `manifest.json` and `.dscli.json` through `os.WriteFile` with 0644,
   * `main.go` and `README.md` through `os.Create` (0666).  The texts of the
   * templates are abstract.
   */
  function ProjectFiles(c: ProjectConfig, buildDate: string): seq<FileSpec>
  {
    [GoModFile(c), MainGoFile(c), ManifestFileOf(c, buildDate), ReadmeFile(c), GitignoreFile(), DscliConfigFile()]
  }

  /** `createGoMod`: the module file, named after the project. */
  function GoModFile(c: ProjectConfig): FileSpec
  {
    FileSpec("go.mod", Blob("go.mod: module " + c.name), FilePerm)
  }

  /** `createMainGo`: the entry point, from a template that embeds the name, description and version. */
  function MainGoFile(c: ProjectConfig): FileSpec
  {
    FileSpec("main.go", Blob("main.go: " + c.name + " " + c.description + " " + c.version), CreatePerm)
  }

  /** `createManifest`. */
  function ManifestFileOf(c: ProjectConfig, buildDate: string): FileSpec
  {
    FileSpec(ManifestFile, Doc(JObj(InitialManifest(c, buildDate))), FilePerm)
  }

  /** `createReadme`: from a template that embeds the name, description, author and version. */
  function ReadmeFile(c: ProjectConfig): FileSpec
  {
    FileSpec("README.md", Blob("README.md: " + c.name + " " + c.description + " " + c.author + " " + c.version), CreatePerm)
  }

  /** `createGitignore`. */
  function GitignoreFile(): FileSpec
  {
    FileSpec(".gitignore", Blob(".gitignore"), FilePerm)
  }

  /** `createDscliConfig`. */
  function DscliConfigFile(): FileSpec
  {
    FileSpec(ConfigFile, Doc(InitialDscliConfig()), FilePerm)
  }

  /** `os.MkdirAll` of each `dir/name` in turn; the first failure names its path and ends the run. */
  function MakeDirs(root: Node, cwd: Path, dir: string, names: seq<string>): (Node, Option<string>)
    decreases |names|
  {
    if names == [] then (root, None)
    else
      var made := MkdirAllPath(root, cwd, Paths.Join(dir, names[0]));
      if made.Err? then (root, Some(Paths.Join(dir, names[0])))
      else MakeDirs(made.value, cwd, dir, names[1..])
  }

  /** The files written in turn into `dir`; the first failure names its path and ends the run. */
  function WriteFiles(root: Node, cwd: Path, dir: string, fs: seq<FileSpec>): (Node, Option<string>)
    decreases |fs|
  {
    if fs == [] then (root, None)
    else
      var written := WriteFilePath(root, cwd, Paths.Join(dir, fs[0].name), fs[0].data, fs[0].perm);
      if written.Err? then (root, Some(Paths.Join(dir, fs[0].name)))
      else WriteFiles(written.value, cwd, dir, fs[1..])
  }

  datatype CreateError = ProjectDirFailed | SubdirFailed(dir: string) | FileFailed(path: string)

  /** `createProject`: the project directory, then the subdirectories, then the files. */
  function CreateProjectRun(root: Node, cwd: Path, c: ProjectConfig, buildDate: string): (Node, Option<CreateError>)
  {
    match MkdirAllPath(root, cwd, c.name)
    case Err(_) => (root, Some(ProjectDirFailed))
    case Ok(withProject) =>
      var (withDirs, dirErr) := MakeDirs(withProject, cwd, c.name, Subdirs);
      if dirErr.Some? then (withDirs, Some(SubdirFailed(dirErr.value)))
      else
        var (written, fileErr) := WriteFiles(withDirs, cwd, c.name, ProjectFiles(c, buildDate));
        (written, if fileErr.Some? then Some(FileFailed(fileErr.value)) else None)
  }

  /** The loop of `createProject` over the subdirectories. */
  method MakeSubdirs(d: Disk, projectDir: string) returns (failed: Option<string>)
    requires d.Valid()
    modifies d
    ensures d.Valid()
    ensures (d.root, failed) == MakeDirs(old(d.root), d.cwd, projectDir, Subdirs)
  {
    for i := 0 to |Subdirs|
      invariant d.Valid()
      invariant MakeDirs(old(d.root), d.cwd, projectDir, Subdirs) == MakeDirs(d.root, d.cwd, projectDir, Subdirs[i..])
    {
      assert Subdirs[i..][1..] == Subdirs[i + 1..];
      var dir := Paths.Join(projectDir, Subdirs[i]);
      var ok := d.MkdirAll(dir);
      if !ok {
        return Some(dir);
      }
    }
    assert Subdirs[|Subdirs|..] == [];
    return None;
  }

  /** `createProject` on the process's file system. */
  method CreateProject(d: Disk, c: ProjectConfig, buildDate: string) returns (err: Option<CreateError>)
    requires d.Valid()
    modifies d
    ensures d.Valid()
    ensures (d.root, err) == CreateProjectRun(old(d.root), d.cwd, c, buildDate)
  {
    var projectDir := c.name;
    var ok := d.MkdirAll(projectDir);
    if !ok {
      return Some(ProjectDirFailed);
    }
    var failed := MakeSubdirs(d, projectDir);
    if failed.Some? {
      return Some(SubdirFailed(failed.value));
    }
    failed := WriteProjectFiles(d, projectDir, c, buildDate);
    if failed.Some? {
      return Some(FileFailed(failed.value));
    }
    return None;
  }

  /** One successful write moves the run of `WriteFiles` on to the remaining files. */
  lemma WriteFilesHead(root: Node, cwd: Path, dir: string, fs: seq<FileSpec>, f: FileSpec)
    requires fs != [] && fs[0] == f && WriteFilePath(root, cwd, Paths.Join(dir, f.name), f.data, f.perm).Ok?
    ensures WriteFiles(root, cwd, dir, fs) ==
      WriteFiles(WriteFilePath(root, cwd, Paths.Join(dir, f.name), f.data, f.perm).value, cwd, dir, fs[1..])
  {
  }

  /**
   * One of the file-creating functions (`createGoMod`, `createMainGo`, ...):
   * write `f` into the project directory; on success the run of
   * `WriteFiles` goes on with the remaining files, on failure it stops here.
   */
  method WriteProjectFile(d: Disk, projectDir: string, f: FileSpec, ghost rest: seq<FileSpec>) returns (failed: Option<string>)
    requires d.Valid() && rest != [] && rest[0] == f
    modifies d
    ensures d.Valid()
    ensures failed.Some? ==> (d.root, failed) == WriteFiles(old(d.root), d.cwd, projectDir, rest)
    ensures failed.None? ==> WriteFiles(old(d.root), d.cwd, projectDir, rest) == WriteFiles(d.root, d.cwd, projectDir, rest[1..])
  {
    ghost var before := d.root;
    var ok := d.WriteFile(Paths.Join(projectDir, f.name), f.data, f.perm);
    if !ok {
      return Some(Paths.Join(projectDir, f.name));
    }
    WriteFilesHead(before, d.cwd, projectDir, rest, f);
    return None;
  }

  /** The files of `ProjectFiles` one after the other, as the run peels them off. */
  lemma ProjectFilesInOrder(c: ProjectConfig, buildDate: string)
    ensures var fs := ProjectFiles(c, buildDate);
      fs != [] && fs[0] == GoModFile(c) &&
      fs[1..] != [] && fs[1..][0] == MainGoFile(c) &&
      fs[1..][1..] != [] && fs[1..][1..][0] == ManifestFileOf(c, buildDate) &&
      fs[1..][1..][1..] != [] && fs[1..][1..][1..][0] == ReadmeFile(c) &&
      fs[1..][1..][1..][1..] != [] && fs[1..][1..][1..][1..][0] == GitignoreFile() &&
      fs[1..][1..][1..][1..][1..] != [] && fs[1..][1..][1..][1..][1..][0] == DscliConfigFile() &&
      fs[1..][1..][1..][1..][1..][1..] == []
  {
  }

  /**
   * The six file-creating calls of `createProject` (`createGoMod`,
   * `createMainGo`, `createManifest`, `createReadme`, `createGitignore`,
   * `createDscliConfig`), each returning early on an error.
   */
  method WriteProjectFiles(d: Disk, projectDir: string, c: ProjectConfig, buildDate: string) returns (failed: Option<string>)
    requires d.Valid()
    modifies d
    ensures d.Valid()
    ensures (d.root, failed) == WriteFiles(old(d.root), d.cwd, projectDir, ProjectFiles(c, buildDate))
  {
    ghost var rest := ProjectFiles(c, buildDate);
    ProjectFilesInOrder(c, buildDate);
    failed := WriteProjectFile(d, projectDir, GoModFile(c), rest);
    if failed.Some? {
      return;
    }
    rest := rest[1..];
    failed := WriteProjectFile(d, projectDir, MainGoFile(c), rest);
    if failed.Some? {
      return;
    }
    rest := rest[1..];
    failed := WriteProjectFile(d, projectDir, ManifestFileOf(c, buildDate), rest);
    if failed.Some? {
      return;
    }
    rest := rest[1..];
    failed := WriteProjectFile(d, projectDir, ReadmeFile(c), rest);
    if failed.Some? {
      return;
    }
    rest := rest[1..];
    failed := WriteProjectFile(d, projectDir, GitignoreFile(), rest);
    if failed.Some? {
      return;
    }
    rest := rest[1..];
    failed := WriteProjectFile(d, projectDir, DscliConfigFile(), rest);
    if failed.Some? {
      return;
    }
    assert rest[1..] == [];
  }

  // --------------------------------------------- what createProject leaves

  /** Indexing into the tail is indexing one further into the whole. */
  lemma TailShift<T>(s: seq<T>, i: nat)
    requires 0 < i < |s|
    ensures s[1..][i - 1] == s[i] && s[1..][i - 1 + 1..] == s[i + 1..]
  {
  }

  /** The tail of a prefix is a prefix of the tail. */
  lemma PrefixTail<T>(s: seq<T>, i: nat)
    requires i + 1 < |s|
    ensures s[..i + 1][0] == s[0] && s[..i + 1][1..] == s[1..][..i] && s[1..][i] == s[i + 1]
  {
  }

  /**
   * `createProject` stops at the first failure: the path it names is the
   * first entry that could not be written, and the tree is exactly what the
   * entries before it produced, with nothing after it attempted.
   */
  lemma {:induction false} WriteFilesStops(root: Node, cwd: Path, dir: string, fs: seq<FileSpec>)
    ensures var (r, failed) := WriteFiles(root, cwd, dir, fs);
      failed.Some? ==> exists i :: (0 <= i < |fs| && failed.value == Paths.Join(dir, fs[i].name) &&
        WriteFiles(root, cwd, dir, fs[..i]) == (r, None) &&
        WriteFilePath(r, cwd, Paths.Join(dir, fs[i].name), fs[i].data, fs[i].perm).Err?)
    decreases |fs|
  {
    if fs != [] {
      var w := WriteFilePath(root, cwd, Paths.Join(dir, fs[0].name), fs[0].data, fs[0].perm);
      if w.Err? {
        assert fs[..0] == [];
      } else {
        WriteFilesStops(w.value, cwd, dir, fs[1..]);
        var (r, failed) := WriteFiles(root, cwd, dir, fs);
        if failed.Some? {
          var i :| 0 <= i < |fs[1..]| && failed.value == Paths.Join(dir, fs[1..][i].name) &&
            WriteFiles(w.value, cwd, dir, fs[1..][..i]) == (r, None) &&
            WriteFilePath(r, cwd, Paths.Join(dir, fs[1..][i].name), fs[1..][i].data, fs[1..][i].perm).Err?;
          var prefix := fs[..i + 1];
          PrefixTail(fs, i);
          assert WriteFiles(root, cwd, dir, prefix) == WriteFiles(w.value, cwd, dir, prefix[1..]);
          assert failed.value == Paths.Join(dir, fs[i + 1].name) &&
            WriteFiles(root, cwd, dir, fs[..i + 1]) == (r, None) &&
            WriteFilePath(r, cwd, Paths.Join(dir, fs[i + 1].name), fs[i + 1].data, fs[i + 1].perm).Err?;
        }
      }
    }
  }

  /** The same for the subdirectories. */
  lemma {:induction false} MakeDirsStops(root: Node, cwd: Path, dir: string, names: seq<string>)
    ensures var (r, failed) := MakeDirs(root, cwd, dir, names);
      failed.Some? ==> exists i :: (0 <= i < |names| && failed.value == Paths.Join(dir, names[i]) &&
        MakeDirs(root, cwd, dir, names[..i]) == (r, None) &&
        MkdirAllPath(r, cwd, Paths.Join(dir, names[i])).Err?)
    decreases |names|
  {
    if names != [] {
      var m := MkdirAllPath(root, cwd, Paths.Join(dir, names[0]));
      if m.Err? {
        assert names[..0] == [];
      } else {
        MakeDirsStops(m.value, cwd, dir, names[1..]);
        var (r, failed) := MakeDirs(root, cwd, dir, names);
        if failed.Some? {
          var i :| 0 <= i < |names[1..]| && failed.value == Paths.Join(dir, names[1..][i]) &&
            MakeDirs(m.value, cwd, dir, names[1..][..i]) == (r, None) &&
            MkdirAllPath(r, cwd, Paths.Join(dir, names[1..][i])).Err?;
          var prefix := names[..i + 1];
          PrefixTail(names, i);
          assert MakeDirs(root, cwd, dir, prefix) == MakeDirs(m.value, cwd, dir, prefix[1..]);
          assert failed.value == Paths.Join(dir, names[i + 1]) &&
            MakeDirs(root, cwd, dir, names[..i + 1]) == (r, None) &&
            MkdirAllPath(r, cwd, Paths.Join(dir, names[i + 1])).Err?;
        }
      }
    }
  }

  /** Every name of a list is an ordinary path element. */
  predicate AllSimple(names: seq<string>)
  {
    forall i :: 0 <= i < |names| ==> Paths.Simple(names[i])
  }

  /** No name occurs twice in a list. */
  predicate Distinct(names: seq<string>)
  {
    forall j, k :: 0 <= j < k < |names| ==> names[j] != names[k]
  }

  lemma DistinctLater(names: seq<string>, i: nat)
    requires Distinct(names) && i < |names|
    ensures names[i] !in names[i + 1..]
  {
  }

  function Names(fs: seq<FileSpec>): (r: seq<string>)
    ensures |r| == |fs| && forall i :: 0 <= i < |fs| ==> r[i] == fs[i].name
  {
    seq(|fs|, i requires 0 <= i < |fs| => fs[i].name)
  }

  /** Writing files into a directory leaves every other entry of it as it was, whether or not a write fails. */
  lemma {:induction false} WriteFilesKeepsSibling(root: Node, cwd: Path, dir: string, fs: seq<FileSpec>, b: string)
    requires Paths.Simple(dir) && Paths.Simple(b) && AllSimple(Names(fs)) && b !in Names(fs)
    ensures StatPath(WriteFiles(root, cwd, dir, fs).0, cwd, Paths.Join(dir, b)) == StatPath(root, cwd, Paths.Join(dir, b))
    decreases |fs|
  {
    if fs != [] {
      var w := WriteFilePath(root, cwd, Paths.Join(dir, fs[0].name), fs[0].data, fs[0].perm);
      if w.Ok? {
        NamesDrop(fs, 1);
        assert Names(fs)[0] == fs[0].name;
        Paths.LocateChild(cwd, dir, fs[0].name);
        Paths.LocateChild(cwd, dir, b);
        assert cwd + [dir, fs[0].name] == (cwd + [dir]) + [fs[0].name];
        assert cwd + [dir, b] == (cwd + [dir]) + [b];
        WriteSiblingKeeps(root, cwd + [dir], fs[0].name, b, fs[0].data, fs[0].perm);
        WriteFilesKeepsSibling(w.value, cwd, dir, fs[1..], b);
      }
    }
  }

  /** Creating subdirectories leaves every other entry of the directory as it was. */
  lemma {:induction false} MakeDirsKeepsSibling(root: Node, cwd: Path, dir: string, names: seq<string>, b: string)
    requires Paths.Simple(dir) && Paths.Simple(b) && AllSimple(names) && b !in names
    ensures StatPath(MakeDirs(root, cwd, dir, names).0, cwd, Paths.Join(dir, b)) == StatPath(root, cwd, Paths.Join(dir, b))
    decreases |names|
  {
    if names != [] {
      var m := MkdirAllPath(root, cwd, Paths.Join(dir, names[0]));
      if m.Ok? {
        Paths.LocateChild(cwd, dir, names[0]);
        Paths.LocateChild(cwd, dir, b);
        assert cwd + [dir, names[0]] == (cwd + [dir]) + [names[0]];
        assert cwd + [dir, b] == (cwd + [dir]) + [b];
        MkdirSiblingKeeps(root, cwd + [dir], names[0], b);
        assert forall j :: 0 <= j < |names[1..]| ==> names[1..][j] == names[j + 1];
        MakeDirsKeepsSibling(m.value, cwd, dir, names[1..], b);
      }
    }
  }

  /** After a run without failure, each file holds what was written last under its name. */
  lemma WriteFilesPlaces(root: Node, cwd: Path, dir: string, fs: seq<FileSpec>, i: nat)
    requires Paths.Simple(dir) && i < |fs| && AllSimple(Names(fs)) && fs[i].name !in Names(fs[i + 1..])
    requires WriteFiles(root, cwd, dir, fs).1.None?
    ensures var n := StatPath(WriteFiles(root, cwd, dir, fs).0, cwd, Paths.Join(dir, fs[i].name));
      n.Some? && n.value.File? && n.value.data == fs[i].data
  {
    WriteFilesSplit(root, cwd, dir, fs, i);
    FilesFrom(fs, i);
    WriteFilesPlacesFirst(WriteFiles(root, cwd, dir, fs[..i]).0, cwd, dir, fs[i..]);
  }

  /** A run without failure is the run of its first `i` files followed by the run of the rest. */
  lemma {:induction false} WriteFilesSplit(root: Node, cwd: Path, dir: string, fs: seq<FileSpec>, i: nat)
    requires i <= |fs| && WriteFiles(root, cwd, dir, fs).1.None?
    ensures WriteFiles(root, cwd, dir, fs) == WriteFiles(WriteFiles(root, cwd, dir, fs[..i]).0, cwd, dir, fs[i..])
    decreases i
  {
    if i == 0 {
      assert fs[..0] == [] && fs[0..] == fs;
    } else {
      var w := WriteFilePath(root, cwd, Paths.Join(dir, fs[0].name), fs[0].data, fs[0].perm);
      WriteFilesStep(root, cwd, dir, fs);
      WriteFilesSplit(w.value, cwd, dir, fs[1..], i - 1);
      var front := fs[..i];
      assert front[0] == fs[0] && front[1..] == fs[1..][..i - 1];
      assert fs[1..][i - 1..] == fs[i..];
    }
  }

  /** A run without failure wrote its first file and went on with the rest. */
  lemma WriteFilesStep(root: Node, cwd: Path, dir: string, fs: seq<FileSpec>)
    requires fs != [] && WriteFiles(root, cwd, dir, fs).1.None?
    ensures var w := WriteFilePath(root, cwd, Paths.Join(dir, fs[0].name), fs[0].data, fs[0].perm);
      w.Ok? && WriteFiles(root, cwd, dir, fs) == WriteFiles(w.value, cwd, dir, fs[1..])
  {
  }

  /** The requirements of `WriteFilesPlaces` at `i` are those of its first file for the files from `i` on. */
  lemma FilesFrom(fs: seq<FileSpec>, i: nat)
    requires i < |fs| && AllSimple(Names(fs)) && fs[i].name !in Names(fs[i + 1..])
    ensures fs[i..] != [] && fs[i..][0] == fs[i] && AllSimple(Names(fs[i..])) && fs[i..][0].name !in Names(fs[i..][1..])
  {
    assert fs[i..][1..] == fs[i + 1..];
    assert Names(fs[i..]) == Names(fs)[i..];
  }

  /** The first file written is still in place when the run ends. */
  lemma WriteFilesPlacesFirst(root: Node, cwd: Path, dir: string, fs: seq<FileSpec>)
    requires Paths.Simple(dir) && fs != [] && AllSimple(Names(fs)) && fs[0].name !in Names(fs[1..])
    requires WriteFiles(root, cwd, dir, fs).1.None?
    ensures var n := StatPath(WriteFiles(root, cwd, dir, fs).0, cwd, Paths.Join(dir, fs[0].name));
      n.Some? && n.value.File? && n.value.data == fs[0].data
  {
    var w := WriteFilePath(root, cwd, Paths.Join(dir, fs[0].name), fs[0].data, fs[0].perm);
    WriteThenStat(root, cwd, Paths.Join(dir, fs[0].name), fs[0].data, fs[0].perm);
    WriteFilesKeepsSibling(w.value, cwd, dir, fs[1..], fs[0].name);
  }

  /** After a run without failure, each subdirectory is a directory. */
  lemma MakeDirsPlaces(root: Node, cwd: Path, dir: string, names: seq<string>, i: nat)
    requires Paths.Simple(dir) && i < |names| && AllSimple(names) && names[i] !in names[i + 1..]
    requires MakeDirs(root, cwd, dir, names).1.None?
    ensures IsDir(StatPath(MakeDirs(root, cwd, dir, names).0, cwd, Paths.Join(dir, names[i])))
  {
    MakeDirsSplit(root, cwd, dir, names, i);
    var rest := names[i..];
    assert rest[0] == names[i] && rest[1..] == names[i + 1..];
    var m := MkdirAllPath(MakeDirs(root, cwd, dir, names[..i]).0, cwd, Paths.Join(dir, names[i]));
    MkdirAllKeepsFiles(MakeDirs(root, cwd, dir, names[..i]).0, Paths.Locate(cwd, Paths.Join(dir, names[i])).value, []);
    MakeDirsKeepsSibling(m.value, cwd, dir, rest[1..], names[i]);
  }

  /** A run without failure is the run of its first `i` names followed by the run of the rest. */
  lemma {:induction false} MakeDirsSplit(root: Node, cwd: Path, dir: string, names: seq<string>, i: nat)
    requires i <= |names| && MakeDirs(root, cwd, dir, names).1.None?
    ensures MakeDirs(root, cwd, dir, names) == MakeDirs(MakeDirs(root, cwd, dir, names[..i]).0, cwd, dir, names[i..])
    decreases i
  {
    if i == 0 {
      assert names[..0] == [] && names[0..] == names;
    } else {
      var m := MkdirAllPath(root, cwd, Paths.Join(dir, names[0]));
      assert m.Ok? && MakeDirs(root, cwd, dir, names) == MakeDirs(m.value, cwd, dir, names[1..]);
      MakeDirsSplit(m.value, cwd, dir, names[1..], i - 1);
      var front := names[..i];
      assert front[0] == names[0] && front[1..] == names[1..][..i - 1];
      assert names[1..][i - 1..] == names[i..];
    }
  }

  /**
   * `createProject` stops at its first failure: a project directory that
   * cannot be made leaves the tree as it was, a subdirectory that cannot be
   * made comes after the ones that were made and before any file, and a file
   * that cannot be written comes after all the directories and the files
   * before it.
   */
  lemma CreateProjectStops(root: Node, cwd: Path, c: ProjectConfig, buildDate: string)
    ensures var (r, err) := CreateProjectRun(root, cwd, c, buildDate);
      (err == Some(ProjectDirFailed) ==> r == root) &&
      (err.Some? && err.value.SubdirFailed? ==>
        exists i :: (0 <= i < |Subdirs| && err.value.dir == Paths.Join(c.name, Subdirs[i]) &&
          MakeDirs(MkdirAllPath(root, cwd, c.name).value, cwd, c.name, Subdirs[..i]) == (r, None))) &&
      (err.Some? && err.value.FileFailed? ==>
        var withDirs := MakeDirs(MkdirAllPath(root, cwd, c.name).value, cwd, c.name, Subdirs).0;
        exists i :: (0 <= i < |ProjectFiles(c, buildDate)| &&
          err.value.path == Paths.Join(c.name, ProjectFiles(c, buildDate)[i].name) &&
          WriteFiles(withDirs, cwd, c.name, ProjectFiles(c, buildDate)[..i]) == (r, None)))
  {
    var m := MkdirAllPath(root, cwd, c.name);
    if m.Ok? {
      MakeDirsStops(m.value, cwd, c.name, Subdirs);
      var withDirs := MakeDirs(m.value, cwd, c.name, Subdirs).0;
      WriteFilesStops(withDirs, cwd, c.name, ProjectFiles(c, buildDate));
    }
  }

  /** The names of the files, in the order they are written. */
  const FileNames: seq<string> := ["go.mod", "main.go", "manifest.json", "README.md", ".gitignore", ".dscli.json"]

  lemma ProjectFileNames(c: ProjectConfig, buildDate: string)
    ensures Names(ProjectFiles(c, buildDate)) == FileNames
  {
  }

  /** The project's entries have distinct, ordinary names, and no subdirectory shares a file's name. */
  lemma EntryNames()
    ensures AllSimple(FileNames) && Distinct(FileNames)
    ensures AllSimple(Subdirs) && Distinct(Subdirs)
    ensures forall s :: s in Subdirs ==> s !in FileNames
  {
    FileNamesDistinct();
    SubdirsDistinct();
    SubdirsNotFiles();
  }

  lemma FileNamesDistinct()
    ensures AllSimple(FileNames) && Distinct(FileNames)
  {
    FileNamesSimple();
  }

  lemma FileNamesSimple()
    ensures AllSimple(FileNames)
  {
  }

  lemma SubdirsDistinct()
    ensures AllSimple(Subdirs) && Distinct(Subdirs)
  {
  }

  lemma SubdirsNotFiles()
    ensures forall s :: s in Subdirs ==> s !in FileNames
  {
  }

  lemma NamesDrop(fs: seq<FileSpec>, k: nat)
    requires k <= |fs|
    ensures Names(fs[k..]) == Names(fs)[k..]
  {
  }

  /** After a successful `createProject`, each file of the project holds what was written for it. */
  lemma CreatedFile(root: Node, cwd: Path, c: ProjectConfig, buildDate: string, i: nat)
    requires Paths.Simple(c.name) && i < |ProjectFiles(c, buildDate)|
    requires CreateProjectRun(root, cwd, c, buildDate).1.None?
    ensures var n := StatPath(CreateProjectRun(root, cwd, c, buildDate).0, cwd + [c.name], ProjectFiles(c, buildDate)[i].name);
      n.Some? && n.value.File? && n.value.data == ProjectFiles(c, buildDate)[i].data
  {
    var fs := ProjectFiles(c, buildDate);
    var withProject := MkdirAllPath(root, cwd, c.name).value;
    var withDirs := MakeDirs(withProject, cwd, c.name, Subdirs).0;
    ProjectFileNames(c, buildDate);
    EntryNames();
    DistinctLater(FileNames, i);
    NamesDrop(fs, i + 1);
    WriteFilesPlaces(withDirs, cwd, c.name, fs, i);
    Paths.LocateChild(cwd, c.name, fs[i].name);
  }

  /** After a successful `createProject`, each subdirectory is a directory. */
  lemma CreatedDir(root: Node, cwd: Path, c: ProjectConfig, buildDate: string, i: nat)
    requires Paths.Simple(c.name) && i < |Subdirs|
    requires CreateProjectRun(root, cwd, c, buildDate).1.None?
    ensures IsDir(StatPath(CreateProjectRun(root, cwd, c, buildDate).0, cwd + [c.name], Subdirs[i]))
  {
    var fs := ProjectFiles(c, buildDate);
    var withProject := MkdirAllPath(root, cwd, c.name).value;
    var withDirs := MakeDirs(withProject, cwd, c.name, Subdirs).0;
    ProjectFileNames(c, buildDate);
    EntryNames();
    DistinctLater(Subdirs, i);
    assert Subdirs[i] in Subdirs;
    MakeDirsPlaces(withProject, cwd, c.name, Subdirs, i);
    WriteFilesKeepsSibling(withDirs, cwd, c.name, fs, Subdirs[i]);
    Paths.LocateChild(cwd, c.name, Subdirs[i]);
  }

  /** The configuration a new project's `.dscli.json` gives `build`. */
  function InitialBuildConfig(): BuildConfig
  {
    BuildConfig(JArr(Strings(InitialAssets)), InitialExcludes, "dist")
  }

  /** Inside a project `createProject` made, the manifest reads back as the initial one. */
  lemma CreatedManifest(root: Node, cwd: Path, c: ProjectConfig, buildDate: string)
    requires Paths.Simple(c.name)
    requires CreateProjectRun(root, cwd, c, buildDate).1.None?
    ensures ReadManifest(CreateProjectRun(root, cwd, c, buildDate).0, cwd + [c.name]) == Ok(InitialManifest(c, buildDate))
  {
    var r := CreateProjectRun(root, cwd, c, buildDate).0;
    CreatedFile(root, cwd, c, buildDate, 2);
    assert ProjectFiles(c, buildDate)[2] == ManifestFileOf(c, buildDate);
    ReadObjectOfDoc(r, cwd + [c.name], ManifestFile, InitialManifest(c, buildDate));
  }

  /**
   * Inside a project `createProject` made, `add` of the project's own name
   * finds its binary listed already and writes nothing.
   */
  lemma CreatedThenAddOwnName(root: Node, cwd: Path, c: ProjectConfig, buildDate: string)
    requires Paths.Simple(c.name)
    requires CreateProjectRun(root, cwd, c, buildDate).1.None?
    ensures var r := CreateProjectRun(root, cwd, c, buildDate).0;
      RegisterOnDisk(r, cwd + [c.name], c.name) == Ok(r)
  {
    CreatedManifest(root, cwd, c, buildDate);
    InitialManifestFacts(c, buildDate, Targets.BuildTarget("linux", "amd64"), buildDate);
  }

  /** Inside a project `createProject` made, `build` loads the configuration it wrote. */
  lemma CreatedBuildConfig(root: Node, cwd: Path, c: ProjectConfig, buildDate: string)
    requires Paths.Simple(c.name)
    requires CreateProjectRun(root, cwd, c, buildDate).1.None?
    ensures LoadBuildConfig(CreateProjectRun(root, cwd, c, buildDate).0, cwd + [c.name]) == Loaded(InitialBuildConfig())
  {
    CreatedFile(root, cwd, c, buildDate, 5);
    assert ProjectFiles(c, buildDate)[5] == DscliConfigFile();
    InitialDscliConfigDecodes();
  }

  // ------------------------------------------------------------ create's Run

  /** What `create` ends with. */
  datatype CreateOutcome = Created | Rejected(error: ConfigError) | Failed(cause: CreateError)

  /** `createCmd.Run` with `--non-interactive`; `buildDate` is the clock's reading. */
  function CreateRun(root: Node, cwd: Path, name: string, description: string, version: string, author: string,
                     buildDate: string): (Node, CreateOutcome)
  {
    match NonInteractiveConfig(name, description, version, author)
    case Err(e) => (root, Rejected(e))
    case Ok(c) =>
      var (r, err) := CreateProjectRun(root, cwd, c, buildDate);
      (r, if err.Some? then Failed(err.value) else Created)
  }

  method CreateCommand(d: Disk, name: string, description: string, version: string, author: string,
                       buildDate: string) returns (outcome: CreateOutcome)
    requires d.Valid()
    modifies d
    ensures d.Valid()
    ensures (d.root, outcome) == CreateRun(old(d.root), d.cwd, name, description, version, author, buildDate)
  {
    var config: ProjectConfig;
    if name == "" {
      return Rejected(NameRequired);
    }
    config := ProjectConfig(name, description, version, author);
    if config.description == "" {
      config := config.(description := DefaultDescription);
    }
    if config.version == "" {
      config := config.(version := DefaultVersion);
    }
    if config.author == "" {
      config := config.(author := DefaultAuthor);
    }
    var err := CreateProject(d, config, buildDate);
    if err.Some? {
      return Failed(err.value);
    }
    return Created;
  }

  /**
   * `create` refuses to run without a name, and only then; a refusal, or a
   * project directory that cannot be made, leaves the tree as it was.
   */
  lemma CreateGates(root: Node, cwd: Path, name: string, description: string, version: string, author: string,
                    buildDate: string)
    ensures var (r, outcome) := CreateRun(root, cwd, name, description, version, author, buildDate);
      (outcome == Rejected(NameRequired) <==> name == "") &&
      (outcome.Rejected? ==> r == root) &&
      (outcome == Failed(ProjectDirFailed) ==> r == root)
  {
    if name != "" {
      CreateProjectStops(root, cwd, NonInteractiveConfig(name, description, version, author).value, buildDate);
    }
  }

  /**
   * After `create` succeeds with an ordinary name, the project directory
   * holds the five subdirectories, a manifest that reads back as the initial
   * one for the completed flags, and a build configuration that loads as
   * written; `add` of the project's own name then writes nothing.
   */
  lemma CreatedProject(root: Node, cwd: Path, name: string, description: string, version: string, author: string,
                       buildDate: string)
    requires Paths.Simple(name)
    ensures var (r, outcome) := CreateRun(root, cwd, name, description, version, author, buildDate);
      var c := NonInteractiveConfig(name, description, version, author).value;
      outcome == Created ==>
        (forall i :: 0 <= i < |Subdirs| ==> IsDir(StatPath(r, cwd + [name], Subdirs[i]))) &&
        ReadManifest(r, cwd + [name]) == Ok(InitialManifest(c, buildDate)) &&
        LoadBuildConfig(r, cwd + [name]) == Loaded(InitialBuildConfig()) &&
        RegisterOnDisk(r, cwd + [name], name) == Ok(r)
  {
    var c := NonInteractiveConfig(name, description, version, author).value;
    if CreateProjectRun(root, cwd, c, buildDate).1.None? {
      forall i | 0 <= i < |Subdirs|
        ensures IsDir(StatPath(CreateProjectRun(root, cwd, c, buildDate).0, cwd + [name], Subdirs[i]))
      {
        CreatedDir(root, cwd, c, buildDate, i);
      }
      CreatedManifest(root, cwd, c, buildDate);
      CreatedBuildConfig(root, cwd, c, buildDate);
      CreatedThenAddOwnName(root, cwd, c, buildDate);
    }
  }
}
