/**
 * Assembly of a target's package (`createPackage`, `addFileToTar`,
 * `addDirToTar`).  The archive is the sequence of entries written to the tar
 * stream; the byte encoding of tar and gzip is not modelled.
 */
module Archive {
  import opened Wrappers
  import opened FileTree
  import Paths
  import opened Assets
  import Manifest

  /** A tar stream being written: each header appends one entry. */
  class TarWriter {
    var entries: seq<TarEntry>

    constructor ()
      ensures entries == []
    {
      entries := [];
    }

    /** `WriteHeader` followed by the copy of the entry's contents. */
    method WriteHeader(e: TarEntry)
      modifies this
      ensures entries == old(entries) + [e]
    {
      entries := entries + [e];
    }
  }

  /**
   * The mode recorded for a path in the archive: 0755 when the path ends in
   * ".exe" or has no '.' at all (and is not "manifest.json"), otherwise the
   * file's own permissions.
   */
  function Mode(tarPath: string, perm: int): int
  {
    if Paths.HasSuffix(tarPath, ".exe") || ('.' !in tarPath && tarPath != "manifest.json") then ExecPerm
    else perm
  }

  /**
   * The mode rule in both directions: 0755 is forced exactly for ".exe"
   * paths and dot-free paths; any other path, "manifest.json" among them,
   * keeps the file's permissions.
   */
  lemma ModeRule(tarPath: string, perm: int)
    ensures (Paths.HasSuffix(tarPath, ".exe") || '.' !in tarPath) ==> Mode(tarPath, perm) == ExecPerm
    ensures !Paths.HasSuffix(tarPath, ".exe") && '.' in tarPath ==> Mode(tarPath, perm) == perm
    ensures Mode("manifest.json", perm) == perm
  {
    assert "manifest.json"[8] == '.';
    assert !Paths.HasSuffix("manifest.json", ".exe") by {
      assert "manifest.json"[9..] != ".exe";
    }
  }

  // ------------------------------------------------------------ addFileToTar

  /**
   * `addFileToTar`: the entries it writes and whether it succeeded.  A
   * missing path writes nothing; a directory gets its header written and
   * then fails on the copy of its contents; a file is written whole.
   * Directories are taken to have mode 0755.
   */
  function FileToTar(root: Node, cwd: Path, filePath: string, tarPath: string): (r: (seq<TarEntry>, bool))
    ensures r.1 <==> IsFile(StatPath(root, cwd, filePath))
    ensures r.1 ==> |r.0| == 1 && r.0[0].FileEntry? && r.0[0].name == tarPath
    ensures r.0 == [] <==> StatPath(root, cwd, filePath).None?
  {
    match StatPath(root, cwd, filePath)
    case None => ([], false)
    case Some(Dir(_)) => ([DirEntry(tarPath, Mode(tarPath, ExecPerm))], false)
    case Some(File(perm, data)) => ([FileEntry(tarPath, Mode(tarPath, perm), data)], true)
  }

  method AddFileToTar(d: Disk, w: TarWriter, filePath: string, tarPath: string) returns (ok: bool)
    modifies w
    ensures w.entries == old(w.entries) + FileToTar(d.root, d.cwd, filePath, tarPath).0
    ensures ok == FileToTar(d.root, d.cwd, filePath, tarPath).1
  {
    var info := d.Stat(filePath);
    if info.None? {
      return false;
    }
    match info.value
    case Dir(_) =>
      w.WriteHeader(DirEntry(tarPath, Mode(tarPath, ExecPerm)));
      return false;
    case File(perm, data) =>
      w.WriteHeader(FileEntry(tarPath, Mode(tarPath, perm), data));
      return true;
  }

  // ------------------------------------------------------------- addDirToTar

  /** The path `filepath.Walk` hands over for a file at `rel` below `dirPath`. */
  function WalkPath(dirPath: string, rel: Path): string
  {
    if rel == [] then dirPath else Paths.Join(dirPath, Paths.JoinWith(rel, '/'))
  }

  /**
   * The archive name of that file: `filepath.Join(output, rel)` with every
   * '\' turned into '/'.
   */
  function TarPathOf(output: string, rel: Path): (r: string)
    ensures '\\' !in r
  {
    var joined := Paths.Join(output, if rel == [] then "." else Paths.JoinWith(rel, '/'));
    var r := Paths.ReplaceChar(joined, '\\', '/');
    assert forall i :: 0 <= i < |r| ==> r[i] != '\\';
    r
  }

  // Two ways of running a sequence of steps that each write entries: all of
  // them (`Flatten`), or in order until the first that fails (`Until`).

  /** The entries of all the parts, in order. */
  function Flatten<T>(parts: seq<seq<T>>): seq<T>
  {
    if parts == [] then [] else parts[0] + Flatten(parts[1..])
  }

  lemma {:induction false} FlattenAppend<T>(a: seq<seq<T>>, b: seq<seq<T>>)
    ensures Flatten(a + b) == Flatten(a) + Flatten(b)
  {
    if a == [] {
      assert a + b == b;
    } else {
      assert (a + b)[1..] == a[1..] + b;
      FlattenAppend(a[1..], b);
    }
  }

  lemma FlattenOne<T>(p: seq<T>)
    ensures Flatten([p]) == p
  {
    assert [p][1..] == [];
  }

  /** One more part written after the parts before it. */
  lemma FlattenStep<T>(parts: seq<seq<T>>, j: int, start: seq<T>, before: seq<T>)
    requires 0 <= j < |parts| && before == start + Flatten(parts[..j])
    ensures before + parts[j] == start + Flatten(parts[..j + 1])
  {
    TakeOneMore(parts, j);
    FlattenAppend(parts[..j], [parts[j]]);
    FlattenOne(parts[j]);
    assert (start + Flatten(parts[..j])) + parts[j] == start + (Flatten(parts[..j]) + parts[j]);
  }

  lemma AppendNil<T>(s: seq<T>)
    ensures s + [] == s
  {
  }

  lemma Assoc<T>(s: seq<T>, a: seq<T>, b: seq<T>, c: seq<T>)
    ensures ((s + a) + b) + c == s + ((a + b) + c)
  {
  }

  lemma Assoc2<T>(s: seq<T>, a: seq<T>, b: seq<T>)
    ensures (s + a) + b == s + (a + b)
  {
  }

  lemma TakeOneMore<T>(s: seq<T>, j: int)
    requires 0 <= j < |s|
    ensures s[..j + 1] == s[..j] + [s[j]]
  {
  }

  lemma SplitAt<T>(s: seq<T>, j: int)
    requires 0 <= j <= |s|
    ensures s == s[..j] + s[j..]
  {
  }

  lemma Whole<T>(s: seq<T>)
    ensures s[..|s|] == s
  {
  }

  /** Parts that are all empty flatten to nothing. */
  lemma {:induction false} FlattenEmpty<T>(parts: seq<seq<T>>)
    requires forall i :: 0 <= i < |parts| ==> parts[i] == []
    ensures Flatten(parts) == []
  {
    if parts != [] {
      FlattenEmpty(parts[1..]);
    }
  }

  /** Parts of one element each flatten to those elements, one per part. */
  lemma {:induction false} FlattenSingletons<T>(parts: seq<seq<T>>)
    requires forall i :: 0 <= i < |parts| ==> |parts[i]| == 1
    ensures |Flatten(parts)| == |parts|
    ensures forall i :: 0 <= i < |parts| ==> Flatten(parts)[i] == parts[i][0]
  {
    if parts != [] {
      FlattenSingletons(parts[1..]);
    }
  }

  /**
   * Steps run in order until the first that fails: the entries they wrote
   * and whether every step succeeded.
   */
  function Until<T>(steps: seq<(seq<T>, bool)>): (seq<T>, bool)
  {
    if steps == [] then ([], true)
    else if !steps[0].1 then steps[0]
    else
      var rest := Until(steps[1..]);
      (steps[0].0 + rest.0, rest.1)
  }

  /**
   * The run of `a + b` is the run of `a` when that fails, and otherwise the
   * run of `a` followed by the run of `b`.
   */
  lemma {:induction false} UntilAppend<T>(a: seq<(seq<T>, bool)>, b: seq<(seq<T>, bool)>)
    ensures Until(a + b) == if Until(a).1 then (Until(a).0 + Until(b).0, Until(b).1) else Until(a)
  {
    if a == [] {
      assert a + b == b;
      assert [] + Until(b).0 == Until(b).0;
    } else {
      assert (a + b)[1..] == a[1..] + b;
      UntilAppend(a[1..], b);
      if a[0].1 && Until(a[1..]).1 {
        assert a[0].0 + (Until(a[1..]).0 + Until(b).0) == (a[0].0 + Until(a[1..]).0) + Until(b).0;
      }
    }
  }

  /**
   * One more step run after the steps before it, which all succeeded: the
   * run up to it succeeds when the step does, and wrote what it wrote.
   */
  lemma UntilStep<T>(steps: seq<(seq<T>, bool)>, j: int, start: seq<T>, before: seq<T>)
    requires 0 <= j < |steps| && Until(steps[..j]).1 && before == start + Until(steps[..j]).0
    ensures Until(steps[..j + 1]).1 == steps[j].1
    ensures before + steps[j].0 == start + Until(steps[..j + 1]).0
  {
    var done, x := steps[..j], steps[j];
    TakeOneMore(steps, j);
    UntilAppend(done, [x]);
    UntilOne(x);
    assert (start + Until(done).0) + x.0 == start + (Until(done).0 + x.0);
  }

  /** A run that fails on a prefix of the steps is settled by that prefix. */
  lemma UntilStop<T>(steps: seq<(seq<T>, bool)>, j: int)
    requires 0 <= j <= |steps| && !Until(steps[..j]).1
    ensures Until(steps) == Until(steps[..j])
  {
    SplitAt(steps, j);
    UntilAppend(steps[..j], steps[j..]);
  }

  lemma UntilOne<T>(x: (seq<T>, bool))
    ensures Until([x]) == x
  {
    assert [x][1..] == [];
    assert x.0 + [] == x.0;
  }

  /**
   * A run succeeds exactly when every step does, and then it wrote the
   * entries of all the steps.
   */
  lemma {:induction false} UntilAllSucceed<T>(steps: seq<(seq<T>, bool)>)
    ensures Until(steps).1 <==> forall i :: 0 <= i < |steps| ==> steps[i].1
    ensures Until(steps).1 ==> Until(steps).0 == Flatten(seq(|steps|, i requires 0 <= i < |steps| => steps[i].0))
  {
    if steps != [] {
      UntilAllSucceed(steps[1..]);
      var all := seq(|steps|, i requires 0 <= i < |steps| => steps[i].0);
      assert all[1..] == seq(|steps[1..]|, i requires 0 <= i < |steps[1..]| => steps[1..][i].0);
      if forall i :: 0 <= i < |steps[1..]| ==> steps[1..][i].1 {
        forall i | 1 <= i < |steps|
          ensures steps[i].1
        {
          assert steps[i] == steps[1..][i - 1];
        }
      }
    }
  }

  /**
   * The walk callback for the file at `rel`: an excluded file is skipped
   * (and the walk goes on), any other file is added.
   */
  function WalkStep(root: Node, cwd: Path, excludes: seq<string>, dirPath: string, output: string, rel: Path): (seq<TarEntry>, bool)
  {
    var path := WalkPath(dirPath, rel);
    if Excluded(excludes, path) then ([], true) else FileToTar(root, cwd, path, TarPathOf(output, rel))
  }

  function WalkSteps(root: Node, cwd: Path, excludes: seq<string>, dirPath: string, output: string, rels: seq<Path>): (r: seq<(seq<TarEntry>, bool)>)
    ensures |r| == |rels|
    ensures forall i :: 0 <= i < |rels| ==> r[i] == WalkStep(root, cwd, excludes, dirPath, output, rels[i])
  {
    seq(|rels|, i requires 0 <= i < |rels| => WalkStep(root, cwd, excludes, dirPath, output, rels[i]))
  }

  /**
   * The walk over the files `rels` (relative paths, in walk order): the
   * first failure ends the walk.
   */
  function WalkToTar(root: Node, cwd: Path, excludes: seq<string>, dirPath: string, output: string, rels: seq<Path>): (seq<TarEntry>, bool)
  {
    Until(WalkSteps(root, cwd, excludes, dirPath, output, rels))
  }

  /** `addDirToTar`: a walk of every file below `dirPath`; no directory is pruned. */
  function DirToTar(root: Node, cwd: Path, excludes: seq<string>, dirPath: string, output: string): (seq<TarEntry>, bool)
  {
    match StatPath(root, cwd, dirPath)
    case None => ([], false)
    case Some(n) => WalkToTar(root, cwd, excludes, dirPath, output, WalkFiles(n))
  }

  /**
   * A walk succeeds exactly when every file it reaches is excluded or is a
   * regular file; it then wrote, in walk order, nothing for an excluded file
   * and one file entry named `Join(output, rel)`, with '/' only, for every
   * other file.
   */
  lemma WalkEntries(root: Node, cwd: Path, excludes: seq<string>, dirPath: string, output: string, rels: seq<Path>)
    ensures WalkToTar(root, cwd, excludes, dirPath, output, rels).1 <==>
      forall i :: 0 <= i < |rels| ==>
        Excluded(excludes, WalkPath(dirPath, rels[i])) || IsFile(StatPath(root, cwd, WalkPath(dirPath, rels[i])))
    ensures WalkToTar(root, cwd, excludes, dirPath, output, rels).1 ==>
      var parts := seq(|rels|, i requires 0 <= i < |rels| => WalkStep(root, cwd, excludes, dirPath, output, rels[i]).0);
      WalkToTar(root, cwd, excludes, dirPath, output, rels).0 == Flatten(parts) &&
      forall i :: 0 <= i < |rels| ==>
        if Excluded(excludes, WalkPath(dirPath, rels[i])) then parts[i] == []
        else |parts[i]| == 1 && parts[i][0].FileEntry? && parts[i][0].name == TarPathOf(output, rels[i]) && '\\' !in parts[i][0].name
  {
    var steps := WalkSteps(root, cwd, excludes, dirPath, output, rels);
    UntilAllSucceed(steps);
    assert seq(|steps|, i requires 0 <= i < |steps| => steps[i].0) ==
      seq(|rels|, i requires 0 <= i < |rels| => WalkStep(root, cwd, excludes, dirPath, output, rels[i]).0);
  }

  /** The walk callback for one file. */
  method AddWalkStep(d: Disk, w: TarWriter, excludes: seq<string>, dirPath: string, output: string, rel: Path) returns (ok: bool)
    modifies w
    ensures w.entries == old(w.entries) + WalkStep(d.root, d.cwd, excludes, dirPath, output, rel).0
    ensures ok == WalkStep(d.root, d.cwd, excludes, dirPath, output, rel).1
  {
    var path := WalkPath(dirPath, rel);
    var excluded := IsExcluded(excludes, path);
    if excluded {
      return true;
    }
    ok := AddFileToTar(d, w, path, TarPathOf(output, rel));
  }

  method AddDirToTar(d: Disk, w: TarWriter, excludes: seq<string>, dirPath: string, output: string) returns (ok: bool)
    modifies w
    ensures w.entries == old(w.entries) + DirToTar(d.root, d.cwd, excludes, dirPath, output).0
    ensures ok == DirToTar(d.root, d.cwd, excludes, dirPath, output).1
  {
    var info := d.Stat(dirPath);
    if info.None? {
      return false;
    }
    var rels := WalkFiles(info.value);
    ghost var steps := WalkSteps(d.root, d.cwd, excludes, dirPath, output, rels);
    ghost var start := w.entries;
    var i := 0;
    while i < |rels|
      invariant 0 <= i <= |rels|
      invariant Until(steps[..i]).1 && w.entries == start + Until(steps[..i]).0
    {
      UntilStep(steps, i, start, w.entries);
      var added := AddWalkStep(d, w, excludes, dirPath, output, rels[i]);
      if !added {
        UntilStop(steps, i + 1);
        return false;
      }
      i := i + 1;
    }
    Whole(steps);
    return true;
  }

  // ----------------------------------------------------------- createPackage

  /** `filepath.Join("bin", name)`. */
  function BinPath(name: string): string
  {
    Paths.Join("bin", name)
  }

  /** What adding each binary under its own path writes. */
  function BinaryParts(root: Node, cwd: Path, built: seq<string>): (r: seq<seq<TarEntry>>)
    ensures |r| == |built|
    ensures forall i :: 0 <= i < |built| ==> r[i] == FileToTar(root, cwd, BinPath(built[i]), BinPath(built[i])).0
  {
    seq(|built|, i requires 0 <= i < |built| => FileToTar(root, cwd, BinPath(built[i]), BinPath(built[i])).0)
  }

  /** The entries of the binaries, in order; a binary that cannot be added is skipped. */
  function BinariesToTar(root: Node, cwd: Path, built: seq<string>): seq<TarEntry>
  {
    Flatten(BinaryParts(root, cwd, built))
  }

  /**
   * When every binary is a file, the binaries contribute one file entry
   * each, in order, under `bin/<name>`.
   */
  lemma BinariesAsFiles(root: Node, cwd: Path, built: seq<string>)
    requires forall i :: 0 <= i < |built| ==> IsFile(StatPath(root, cwd, BinPath(built[i])))
    ensures var es := BinariesToTar(root, cwd, built);
      |es| == |built| && forall i :: 0 <= i < |built| ==> es[i].FileEntry? && es[i].name == BinPath(built[i])
  {
    FlattenSingletons(BinaryParts(root, cwd, built));
  }

  /**
   * The entries of one asset: an excluded or missing source adds nothing, a
   * directory is walked, a file is added; a failure is skipped.
   */
  function AssetToTar(root: Node, cwd: Path, excludes: seq<string>, a: AssetConfig): seq<TarEntry>
  {
    if Excluded(excludes, a.source) then []
    else match StatPath(root, cwd, a.source)
      case None => []
      case Some(Dir(_)) => DirToTar(root, cwd, excludes, a.source, a.output).0
      case Some(File(_, _)) => FileToTar(root, cwd, a.source, a.output).0
  }

  function AssetParts(root: Node, cwd: Path, excludes: seq<string>, assets: seq<AssetConfig>): (r: seq<seq<TarEntry>>)
    ensures |r| == |assets|
    ensures forall i :: 0 <= i < |assets| ==> r[i] == AssetToTar(root, cwd, excludes, assets[i])
  {
    seq(|assets|, i requires 0 <= i < |assets| => AssetToTar(root, cwd, excludes, assets[i]))
  }

  /** The entries of the assets, in order. */
  function AssetsToTar(root: Node, cwd: Path, excludes: seq<string>, assets: seq<AssetConfig>): seq<TarEntry>
  {
    Flatten(AssetParts(root, cwd, excludes, assets))
  }

  /** Assets whose sources are all excluded add nothing. */
  lemma ExcludedAssetsAddNothing(root: Node, cwd: Path, excludes: seq<string>, assets: seq<AssetConfig>)
    requires forall i :: 0 <= i < |assets| ==> Excluded(excludes, assets[i].source)
    ensures AssetsToTar(root, cwd, excludes, assets) == []
  {
    FlattenEmpty(AssetParts(root, cwd, excludes, assets));
  }

  /**
   * An asset that is not excluded and whose source is a file adds exactly
   * one file entry, at its output path, holding the file's contents.
   */
  lemma FileAssetEntry(root: Node, cwd: Path, excludes: seq<string>, a: AssetConfig, perm: int, data: Data)
    requires !Excluded(excludes, a.source) && StatPath(root, cwd, a.source) == Some(File(perm, data))
    ensures AssetToTar(root, cwd, excludes, a) == [FileEntry(a.output, Mode(a.output, perm), data)]
  {
  }

  /** An asset whose source does not exist adds nothing. */
  lemma MissingAssetAddsNothing(root: Node, cwd: Path, excludes: seq<string>, a: AssetConfig)
    requires StatPath(root, cwd, a.source).None?
    ensures AssetToTar(root, cwd, excludes, a) == []
  {
  }

  /**
   * The assets are added one after another: the entries of two lists of
   * assets are the first list's entries followed by the second's, and one
   * asset alone adds its own entries.
   */
  lemma AssetsAppend(root: Node, cwd: Path, excludes: seq<string>, a: seq<AssetConfig>, b: seq<AssetConfig>)
    ensures AssetsToTar(root, cwd, excludes, a + b) == AssetsToTar(root, cwd, excludes, a) + AssetsToTar(root, cwd, excludes, b)
    ensures |a| == 1 ==> AssetsToTar(root, cwd, excludes, a) == AssetToTar(root, cwd, excludes, a[0])
  {
    assert AssetParts(root, cwd, excludes, a + b) == AssetParts(root, cwd, excludes, a) + AssetParts(root, cwd, excludes, b);
    FlattenAppend(AssetParts(root, cwd, excludes, a), AssetParts(root, cwd, excludes, b));
    if |a| == 1 {
      assert AssetParts(root, cwd, excludes, a) == [AssetToTar(root, cwd, excludes, a[0])];
      FlattenOne(AssetToTar(root, cwd, excludes, a[0]));
    }
  }

  /**
   * When every asset is a file that is not excluded, the assets contribute
   * one file entry each, in order, at their output paths.
   */
  lemma AssetsAsFiles(root: Node, cwd: Path, excludes: seq<string>, assets: seq<AssetConfig>)
    requires forall i :: 0 <= i < |assets| ==> !Excluded(excludes, assets[i].source) && IsFile(StatPath(root, cwd, assets[i].source))
    ensures var es := AssetsToTar(root, cwd, excludes, assets);
      |es| == |assets| && forall i :: 0 <= i < |assets| ==> es[i].FileEntry? && es[i].name == assets[i].output
  {
    FlattenSingletons(AssetParts(root, cwd, excludes, assets));
  }

  /** The directory entry for `bin/`, written only when there are binaries. */
  function BinHeader(built: seq<string>): seq<TarEntry>
  {
    if |built| > 0 then [DirEntry("bin/", ExecPerm)] else []
  }

  /**
   * The archive contents and whether the package succeeded: `bin/`, the
   * binaries, the manifest (read from `manifestPath`), then the assets.
   * Only a manifest that cannot be added fails the package (and ends it
   * before the assets); an asset list that does not decode leaves the
   * assets out.
   */
  function PackageEntriesFrom(root: Node, cwd: Path, config: BuildConfig, built: seq<string>, manifestPath: string): (seq<TarEntry>, bool)
  {
    var head := BinHeader(built) + BinariesToTar(root, cwd, built);
    var (man, manOk) := FileToTar(root, cwd, manifestPath, manifestPath);
    if !manOk then (head + man, false)
    else match ParseAssetsSpec(config.assets)
      case Err(_) => (head + man, true)
      case Ok(assets) => (head + man + AssetsToTar(root, cwd, config.excludes, assets), true)
  }

  function PackageEntries(root: Node, cwd: Path, config: BuildConfig, built: seq<string>): (seq<TarEntry>, bool)
  {
    PackageEntriesFrom(root, cwd, config, built, Manifest.ManifestFile)
  }

  /**
   * `createPackage`: the archive file is created first (so it stays behind,
   * holding what was written, even when the package fails), then filled.
   */
  function CreatePackageSpec(root: Node, cwd: Path, config: BuildConfig, packagePath: string, built: seq<string>): (Node, bool)
  {
    match WriteFilePath(root, cwd, packagePath, Tar([]), CreatePerm)
    case Err(_) => (root, false)
    case Ok(created) =>
      var (es, ok) := PackageEntries(created, cwd, config, built);
      var closed := WriteFilePath(created, cwd, packagePath, Tar(es), CreatePerm);
      (if closed.Ok? then closed.value else created, ok)
  }

  /** Packing removes no file and keeps the root a directory. */
  lemma CreatePackageKeepsFiles(root: Node, cwd: Path, config: BuildConfig, packagePath: string, built: seq<string>, s: string)
    requires IsFile(StatPath(root, cwd, s))
    ensures var r := CreatePackageSpec(root, cwd, config, packagePath, built).0;
      IsFile(StatPath(r, cwd, s)) && (root.Dir? ==> r.Dir?)
  {
    var created := WriteFilePath(root, cwd, packagePath, Tar([]), CreatePerm);
    if created.Ok? {
      WritePathKeepsFiles(root, cwd, packagePath, Tar([]), CreatePerm, s);
      var es := PackageEntries(created.value, cwd, config, built).0;
      if WriteFilePath(created.value, cwd, packagePath, Tar(es), CreatePerm).Ok? {
        WritePathKeepsFiles(created.value, cwd, packagePath, Tar(es), CreatePerm, s);
      }
    }
  }

  /**
   * The layout of a package whose binaries and manifest are files: `bin/`
   * (if there are binaries), `bin/<name>` for each binary in order, then
   * the manifest, then exactly the entries of the assets in order, or
   * nothing when the asset list does not decode.
   */
  lemma PackageLayout(root: Node, cwd: Path, config: BuildConfig, built: seq<string>, manifestPath: string)
    requires forall i :: 0 <= i < |built| ==> IsFile(StatPath(root, cwd, BinPath(built[i])))
    requires IsFile(StatPath(root, cwd, manifestPath))
    ensures var (es, ok) := PackageEntriesFrom(root, cwd, config, built, manifestPath);
      var h := |BinHeader(built)|;
      ok && |es| >= h + |built| + 1 &&
      (|built| > 0 ==> es[0] == DirEntry("bin/", ExecPerm)) &&
      (forall i :: 0 <= i < |built| ==> es[h + i].FileEntry? && es[h + i].name == BinPath(built[i])) &&
      es[h + |built|].FileEntry? && es[h + |built|].name == manifestPath &&
      es[h + |built| + 1..] ==
        (if ParseAssetsSpec(config.assets).Ok? then AssetsToTar(root, cwd, config.excludes, ParseAssetsSpec(config.assets).value) else [])
  {
    BinariesAsFiles(root, cwd, built);
    var es := PackageEntriesFrom(root, cwd, config, built, manifestPath).0;
    var pre := BinHeader(built) + BinariesToTar(root, cwd, built) + FileToTar(root, cwd, manifestPath, manifestPath).0;
    assert forall k :: 0 <= k < |pre| ==> es[k] == pre[k];
    assert |pre| == |BinHeader(built)| + |built| + 1;
    assert es[|pre|..] ==
      (if ParseAssetsSpec(config.assets).Ok? then AssetsToTar(root, cwd, config.excludes, ParseAssetsSpec(config.assets).value) else []);
  }

  /** A manifest that cannot be added fails the package and no asset is written. */
  lemma ManifestFailureStopsAssets(root: Node, cwd: Path, config: BuildConfig, built: seq<string>, manifestPath: string)
    requires !IsFile(StatPath(root, cwd, manifestPath))
    ensures var (es, ok) := PackageEntriesFrom(root, cwd, config, built, manifestPath);
      !ok && es == BinHeader(built) + BinariesToTar(root, cwd, built) + FileToTar(root, cwd, manifestPath, manifestPath).0
  {
  }

  /** The binaries' entries, one `addFileToTar` per binary. */
  method AddBinaries(d: Disk, w: TarWriter, built: seq<string>)
    modifies w
    ensures w.entries == old(w.entries) + BinariesToTar(d.root, d.cwd, built)
  {
    ghost var parts := BinaryParts(d.root, d.cwd, built);
    var i := 0;
    while i < |built|
      invariant 0 <= i <= |built|
      invariant w.entries == old(w.entries) + Flatten(parts[..i])
    {
      FlattenStep(parts, i, old(w.entries), w.entries);
      var path := BinPath(built[i]);
      var _ := AddFileToTar(d, w, path, path);
      i := i + 1;
    }
    Whole(parts);
  }

  /** One asset of the loop: skipped when excluded or missing, walked when a directory. */
  method AddAsset(d: Disk, w: TarWriter, excludes: seq<string>, a: AssetConfig)
    modifies w
    ensures w.entries == old(w.entries) + AssetToTar(d.root, d.cwd, excludes, a)
  {
    var excluded := IsExcluded(excludes, a.source);
    if excluded {
      return;
    }
    var info := d.Stat(a.source);
    if info.None? {
      return;
    }
    if info.value.Dir? {
      var _ := AddDirToTar(d, w, excludes, a.source, a.output);
    } else {
      var _ := AddFileToTar(d, w, a.source, a.output);
    }
  }

  /** The assets' entries: the loop over the decoded asset list. */
  method AddAssets(d: Disk, w: TarWriter, excludes: seq<string>, assets: seq<AssetConfig>)
    modifies w
    ensures w.entries == old(w.entries) + AssetsToTar(d.root, d.cwd, excludes, assets)
  {
    ghost var parts := AssetParts(d.root, d.cwd, excludes, assets);
    var j := 0;
    while j < |assets|
      invariant 0 <= j <= |assets|
      invariant w.entries == old(w.entries) + Flatten(parts[..j])
    {
      FlattenStep(parts, j, old(w.entries), w.entries);
      AddAsset(d, w, excludes, assets[j]);
      j := j + 1;
    }
    Whole(parts);
  }

  /** The archive contents written by `createPackage`, with the manifest read from `manifestPath`. */
  method FillPackage(d: Disk, w: TarWriter, config: BuildConfig, built: seq<string>, manifestPath: string) returns (ok: bool)
    modifies w
    ensures w.entries == old(w.entries) + PackageEntriesFrom(d.root, d.cwd, config, built, manifestPath).0
    ensures ok == PackageEntriesFrom(d.root, d.cwd, config, built, manifestPath).1
  {
    ghost var start := w.entries;
    if |built| > 0 {
      w.WriteHeader(DirEntry("bin/", ExecPerm));
    } else {
      AppendNil(start);
    }
    AddBinaries(d, w, built);
    var manOk := AddFileToTar(d, w, manifestPath, manifestPath);
    ghost var man := FileToTar(d.root, d.cwd, manifestPath, manifestPath).0;
    Assoc(start, BinHeader(built), BinariesToTar(d.root, d.cwd, built), man);
    ghost var written := BinHeader(built) + BinariesToTar(d.root, d.cwd, built) + man;
    if !manOk {
      return false;
    }
    var parsed := ParseAssets(config.assets);
    if parsed.Ok? {
      AddAssets(d, w, config.excludes, parsed.value);
      Assoc2(start, written, AssetsToTar(d.root, d.cwd, config.excludes, parsed.value));
    }
    return true;
  }

  method CreatePackage(d: Disk, config: BuildConfig, packagePath: string, built: seq<string>) returns (ok: bool)
    requires d.Valid()
    modifies d
    ensures d.Valid()
    ensures (d.root, ok) == CreatePackageSpec(old(d.root), d.cwd, config, packagePath, built)
  {
    var created := d.WriteFile(packagePath, Tar([]), CreatePerm);
    if !created {
      return false;
    }
    ghost var createdRoot := d.root;
    var w := new TarWriter();
    ok := FillPackage(d, w, config, built, Manifest.ManifestFile);
    ghost var entries := PackageEntries(createdRoot, d.cwd, config, built);
    assert [] + entries.0 == entries.0;
    assert w.entries == entries.0 && ok == entries.1;
    var _ := d.WriteFile(packagePath, Tar(w.entries), CreatePerm);
  }
}
