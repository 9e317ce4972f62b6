/**
 * The build of one target (`buildForTarget`) and of a whole project
 * (`buildProject`): compile the root package and every `cmd/<name>` entry
 * point into `bin`, stamp the manifest, pack the archive into the output
 * directory and remove the binaries again.
 *
 * The Go toolchain is an oracle: whether `go build` of a package succeeds
 * for a target is a parameter, and a successful build writes the binary
 * `bin/<binary>` (creating `bin`).  The time stamp of a target is a
 * parameter too.
 */
module Build {
  import opened Wrappers
  import opened Json
  import Paths
  import opened FileTree
  import opened Targets
  import opened Assets
  import opened Manifest
  import opened Discovery
  import opened Archive

  // ------------------------------------------------------------------ names

  /** The binary of `name` for `t`: ".exe" is added for windows. */
  function BinaryName(name: string, t: BuildTarget): string
  {
    if t.os == "windows" then name + ".exe" else name
  }

  /** `<project>_<os>_<arch>.tar.gz`. */
  function PackageName(project: string, t: BuildTarget): string
  {
    project + "_" + t.os + "_" + t.arch + ".tar.gz"
  }

  /**
   * A binary of an ordinary name lands at `bin/<binary>`, and the archive
   * records it as executable for windows (".exe") and for dot-free names;
   * any other non-windows binary keeps the permissions of its file.
   */
  lemma BinaryMode(name: string, t: BuildTarget, perm: int)
    requires Paths.Simple(name)
    ensures BinPath(BinaryName(name, t)) == "bin/" + BinaryName(name, t)
    ensures t.os == "windows" || '.' !in name ==> Mode(BinPath(BinaryName(name, t)), perm) == ExecPerm
    ensures t.os != "windows" && '.' in name && !Paths.HasSuffix(name, ".exe") ==>
      Mode(BinPath(BinaryName(name, t)), perm) == perm
  {
    var b := BinaryName(name, t);
    assert Paths.Simple(b) by {
      if t.os == "windows" {
        assert b[|name|..] == ".exe";
      }
    }
    Paths.JoinSimple("bin", b);
    BinPathSuffix(b);
    ModeRule("bin/" + b, perm);
    if t.os == "windows" {
      assert b[|name|..] == ".exe";
    }
  }

  /** The "bin/" prefix neither adds a '.' nor makes an ".exe" suffix. */
  lemma BinPathSuffix(b: string)
    ensures Paths.HasSuffix("bin/" + b, ".exe") <==> Paths.HasSuffix(b, ".exe")
    ensures '.' in "bin/" + b <==> '.' in b
  {
    assert '.' !in "bin/";
    if |b| >= 4 {
      Paths.HasSuffixAppend("bin/", b, ".exe");
    } else {
      var path := "bin/" + b;
      assert path[|path| - 4..][3 - |b|] == '/';
    }
  }

  /**
   * Package names tell targets apart: two targets whose operating systems
   * hold no '_' (as every row of the table) get the same package name
   * exactly when they are the same target.
   */
  lemma PackageNameInjective(project: string, t: BuildTarget, u: BuildTarget)
    requires '_' !in t.os && '_' !in u.os
    ensures PackageName(project, t) == PackageName(project, u) <==> t == u
  {
    if PackageName(project, t) == PackageName(project, u) {
      var s := PackageName(project, t);
      var m := t.os + "_" + t.arch;
      var n := u.os + "_" + u.arch;
      assert s == (project + "_") + m + ".tar.gz";
      assert s == (project + "_") + n + ".tar.gz";
      assert |m| == |n|;
      assert m == s[|project| + 1..|s| - 7];
      assert n == s[|project| + 1..|s| - 7];
      assert m[|t.os|] == '_' && n[|u.os|] == '_';
        assert t.os == m[..|t.os|] && u.os == n[..|u.os|];
      assert t.arch == m[|t.os| + 1..] && u.arch == n[|u.os| + 1..];
    }
  }

  /** Every row of the table gets a package name of its own. */
  lemma MatrixPackagesDistinct(project: string, i: nat, j: nat)
    requires i < |Matrix| && j < |Matrix| && i != j
    ensures PackageName(project, Matrix[i]) != PackageName(project, Matrix[j])
  {
    PackageNameInjective(project, Matrix[i], Matrix[j]);
  }

  // -------------------------------------------------------------- compiling

  /** Whether `go build` of the package at the source path succeeds for a target. */
  type Compiler = (string, BuildTarget) -> bool

  /**
   * `go build -o bin/<binary> <source>` for `t`: a build the compiler rejects
   * changes nothing; an accepted one creates `bin` and writes the binary,
   * and fails if either cannot be done.
   */
  function CompileStep(root: Node, cwd: Path, compiles: Compiler, t: BuildTarget, source: string, binary: string): (Node, bool)
  {
    if !compiles(source, t) then (root, false)
    else match MkdirAllPath(root, cwd, "bin")
      case Err(_) => (root, false)
      case Ok(withBin) =>
        match WriteFilePath(withBin, cwd, BinPath(binary), Blob(source), ExecPerm)
        case Err(_) => (withBin, false)
        case Ok(written) => (written, true)
  }

  method Compile(d: Disk, compiles: Compiler, t: BuildTarget, source: string, binary: string) returns (ok: bool)
    requires d.Valid()
    modifies d
    ensures d.Valid()
    ensures (d.root, ok) == CompileStep(old(d.root), d.cwd, compiles, t, source, binary)
  {
    if !compiles(source, t) {
      return false;
    }
    ok := d.MkdirAll("bin");
    if !ok {
      return;
    }
    ok := d.WriteFile(BinPath(binary), Blob(source), ExecPerm);
  }

  /**
   * A successful compilation leaves its binary as a file; no compilation
   * removes a file; a failed one changes no file at all.
   */
  lemma CompileStepFiles(root: Node, cwd: Path, compiles: Compiler, t: BuildTarget, source: string, binary: string, s: string)
    ensures var (r, ok) := CompileStep(root, cwd, compiles, t, source, binary);
      (ok ==> IsFile(StatPath(r, cwd, BinPath(binary)))) &&
      (IsFile(StatPath(root, cwd, s)) ==> IsFile(StatPath(r, cwd, s))) &&
      (!ok && IsFile(StatPath(root, cwd, s)) ==> StatPath(r, cwd, s) == StatPath(root, cwd, s)) &&
      (root.Dir? ==> r.Dir?) &&
      (!compiles(source, t) ==> r == root && !ok)
  {
    if compiles(source, t) && MkdirAllPath(root, cwd, "bin").Ok? {
      var withBin := MkdirAllPath(root, cwd, "bin").value;
      if IsFile(StatPath(root, cwd, s)) {
        MkdirAllPathKeepsFiles(root, cwd, "bin", s);
      }
      var w := WriteFilePath(withBin, cwd, BinPath(binary), Blob(source), ExecPerm);
      if w.Ok? {
        WriteThenStat(withBin, cwd, BinPath(binary), Blob(source), ExecPerm);
        if IsFile(StatPath(withBin, cwd, s)) {
          WritePathKeepsFiles(withBin, cwd, BinPath(binary), Blob(source), ExecPerm, s);
        }
      }
    }
  }

  /** The source path of an entry point: `"./" + filepath.Join("cmd", name)`. */
  function CmdSource(name: string): string
  {
    "./" + Paths.Join(CmdDir, name)
  }

  /**
   * The entry points compiled in order, each in the tree the earlier ones
   * left: the final tree and the binaries that were built.
   */
  function CompileCommands(root: Node, cwd: Path, compiles: Compiler, t: BuildTarget, execs: seq<string>): (Node, seq<string>)
    decreases |execs|
  {
    if execs == [] then (root, [])
    else
      var (r, built) := CompileCommands(root, cwd, compiles, t, execs[..|execs| - 1]);
      var e := execs[|execs| - 1];
      var (r', ok) := CompileStep(r, cwd, compiles, t, CmdSource(e), BinaryName(e, t));
      (r', built + if ok then [BinaryName(e, t)] else [])
  }

  /** `a` is `b` with some elements left out, the rest in order. */
  predicate Subsequence<T(==)>(a: seq<T>, b: seq<T>)
    decreases |b|
  {
    if b == [] then a == []
    else
      Subsequence(a, b[..|b| - 1]) ||
      (a != [] && a[|a| - 1] == b[|b| - 1] && Subsequence(a[..|a| - 1], b[..|b| - 1]))
  }

  /** The binary names of the entry points, in discovery order. */
  function BinaryNames(execs: seq<string>, t: BuildTarget): (r: seq<string>)
    ensures |r| == |execs|
    ensures forall i :: 0 <= i < |execs| ==> r[i] == BinaryName(execs[i], t)
  {
    seq(|execs|, i requires 0 <= i < |execs| => BinaryName(execs[i], t))
  }

  lemma PrefixStep<T>(s: seq<T>, j: int)
    requires 0 <= j < |s|
    ensures s[..j + 1][..j] == s[..j] && s[..j + 1][j] == s[j] && |s[..j + 1]| == j + 1
  {
  }

  /** A non-empty sequence is its front followed by its last element. */
  lemma Snoc<T>(s: seq<T>)
    requires s != []
    ensures s == s[..|s| - 1] + [s[|s| - 1]]
  {
  }

  /** Extending the whole sequence by an element, and the part by that element or nothing, keeps a subsequence. */
  lemma SubsequenceExtend<T>(a: seq<T>, b: seq<T>, x: T, keep: bool)
    requires Subsequence(a, b)
    ensures Subsequence(a + (if keep then [x] else []), b + [x])
  {
    var a', b' := a + (if keep then [x] else []), b + [x];
    assert b'[..|b'| - 1] == b && b'[|b'| - 1] == x;
    if keep {
      assert a'[..|a'| - 1] == a && a'[|a'| - 1] == x;
    } else {
      assert a' == a;
    }
  }

  lemma BinaryNamesSnoc(execs: seq<string>, e: string, t: BuildTarget)
    ensures BinaryNames(execs + [e], t) == BinaryNames(execs, t) + [BinaryName(e, t)]
  {
    var l, r := BinaryNames(execs + [e], t), BinaryNames(execs, t) + [BinaryName(e, t)];
    assert |l| == |r|;
    forall i | 0 <= i < |l|
      ensures l[i] == r[i]
    {
      if i < |execs| {
        assert (execs + [e])[i] == execs[i];
      }
    }
  }

  /** Only a build the compiler accepts succeeds. */
  lemma CompiledOnlyIfAccepted(root: Node, cwd: Path, compiles: Compiler, t: BuildTarget, source: string, binary: string)
    ensures CompileStep(root, cwd, compiles, t, source, binary).1 ==> compiles(source, t)
  {
  }

  /**
   * The binaries built from the entry points: only entry points the compiler
   * accepts, in discovery order.
   */
  lemma {:induction false} CompileCommandsOrder(root: Node, cwd: Path, compiles: Compiler, t: BuildTarget, execs: seq<string>)
    ensures var built := CompileCommands(root, cwd, compiles, t, execs).1;
      Subsequence(built, BinaryNames(execs, t)) &&
      forall b :: b in built ==> exists e :: e in execs && b == BinaryName(e, t) && compiles(CmdSource(e), t)
    decreases |execs|
  {
    if execs != [] {
      var init, e := execs[..|execs| - 1], execs[|execs| - 1];
      var built := CompileCommands(root, cwd, compiles, t, init).1;
      var r := CompileCommands(root, cwd, compiles, t, init).0;
      var b := BinaryName(e, t);
      var ok := CompileStep(r, cwd, compiles, t, CmdSource(e), b).1;
      var built' := built + if ok then [b] else [];
      assert CompileCommands(root, cwd, compiles, t, execs).1 == built';
      CompileCommandsOrder(root, cwd, compiles, t, init);
      CompiledOnlyIfAccepted(r, cwd, compiles, t, CmdSource(e), b);
      Snoc(execs);
      BinaryNamesSnoc(init, e, t);
      SubsequenceExtend(built, BinaryNames(init, t), b, ok);
      forall x | x in built'
        ensures exists e' :: e' in execs && x == BinaryName(e', t) && compiles(CmdSource(e'), t)
      {
        if x in built {
          var e' :| e' in init && x == BinaryName(e', t) && compiles(CmdSource(e'), t);
          assert e' in execs;
        } else {
          assert e in execs;
        }
      }
    }
  }

  /**
   * Compiling the entry points removes no file, and when nothing is built it
   * changes no file.
   */
  lemma {:induction false} CompileCommandsKeep(root: Node, cwd: Path, compiles: Compiler, t: BuildTarget, execs: seq<string>, s: string)
    ensures var (r, built) := CompileCommands(root, cwd, compiles, t, execs);
      (IsFile(StatPath(root, cwd, s)) ==> IsFile(StatPath(r, cwd, s))) &&
      (built == [] && IsFile(StatPath(root, cwd, s)) ==> StatPath(r, cwd, s) == StatPath(root, cwd, s)) &&
      (root.Dir? ==> r.Dir?)
    decreases |execs|
  {
    if execs != [] {
      var init, e := execs[..|execs| - 1], execs[|execs| - 1];
      var r := CompileCommands(root, cwd, compiles, t, init).0;
      CompileCommandsKeep(root, cwd, compiles, t, init, s);
      CompileStepFiles(r, cwd, compiles, t, CmdSource(e), BinaryName(e, t), s);
    }
  }

  /** Every binary built from the entry points is a file at `bin/<binary>` afterwards. */
  lemma {:induction false} CompileCommandsFiles(root: Node, cwd: Path, compiles: Compiler, t: BuildTarget, execs: seq<string>)
    ensures var (r, built) := CompileCommands(root, cwd, compiles, t, execs);
      forall b :: b in built ==> IsFile(StatPath(r, cwd, BinPath(b)))
    decreases |execs|
  {
    if execs != [] {
      var init, e := execs[..|execs| - 1], execs[|execs| - 1];
      var (r, built) := CompileCommands(root, cwd, compiles, t, init);
      var b := BinaryName(e, t);
      var (r', ok) := CompileStep(r, cwd, compiles, t, CmdSource(e), b);
      CompileCommandsFiles(root, cwd, compiles, t, init);
      forall x | x in CompileCommands(root, cwd, compiles, t, execs).1
        ensures IsFile(StatPath(r', cwd, BinPath(x)))
      {
        CompileStepFiles(r, cwd, compiles, t, CmdSource(e), b, BinPath(x));
      }
    }
  }

  /** The loop over the discovered entry points. */
  method CompileEntryPoints(d: Disk, compiles: Compiler, t: BuildTarget, execs: seq<string>) returns (built: seq<string>)
    requires d.Valid()
    modifies d
    ensures d.Valid()
    ensures (d.root, built) == CompileCommands(old(d.root), d.cwd, compiles, t, execs)
  {
    built := [];
    var i := 0;
    while i < |execs|
      invariant 0 <= i <= |execs|
      invariant d.Valid()
      invariant (d.root, built) == CompileCommands(old(d.root), d.cwd, compiles, t, execs[..i])
    {
      PrefixStep(execs, i);
      var execName := execs[i];
      var binaryName := BinaryName(execName, t);
      var sourcePath := CmdSource(execName);
      var ok := Compile(d, compiles, t, sourcePath, binaryName);
      if ok {
        built := built + [binaryName];
      } else {
        AppendNil(built);
      }
      i := i + 1;
    }
    Whole(execs);
  }

  /**
   * The compile phase of `buildForTarget`: the root package when `main.go`
   * exists, then the entry points found in the tree that leaves; a `cmd`
   * that cannot be listed is only warned about.
   */
  function CompileAll(root: Node, cwd: Path, compiles: Compiler, project: string, t: BuildTarget): (Node, seq<string>)
  {
    var (r, main) :=
      if StatPath(root, cwd, "main.go").Some? then
        var (r, ok) := CompileStep(root, cwd, compiles, t, ".", BinaryName(project, t));
        (r, if ok then [BinaryName(project, t)] else [])
      else (root, []);
    match Discover(r, cwd)
    case Err(_) => (r, main)
    case Ok(execs) =>
      var (r', cmds) := CompileCommands(r, cwd, compiles, t, execs);
      (r', main + cmds)
  }

  method CompileBinaries(d: Disk, compiles: Compiler, project: string, t: BuildTarget) returns (built: seq<string>)
    requires d.Valid()
    modifies d
    ensures d.Valid()
    ensures (d.root, built) == CompileAll(old(d.root), d.cwd, compiles, project, t)
  {
    built := [];
    var main := d.Stat("main.go");
    if main.Some? {
      var binaryName := BinaryName(project, t);
      var ok := Compile(d, compiles, t, ".", binaryName);
      if ok {
        built := [binaryName];
      }
    }
    var found := DiscoverCmdExecutables(d);
    if found.Ok? {
      var cmds := CompileEntryPoints(d, compiles, t, found.value);
      built := built + cmds;
    }
  }

  /** Whether the root package was compiled: `main.go` exists and its build succeeded. */
  predicate MainBuilt(root: Node, cwd: Path, compiles: Compiler, project: string, t: BuildTarget)
  {
    StatPath(root, cwd, "main.go").Some? && CompileStep(root, cwd, compiles, t, ".", BinaryName(project, t)).1
  }

  /**
   * The binaries of the compile phase: the root binary first when it was
   * built, then binaries of entry points the compiler accepts, in the order
   * discovery lists them.
   */
  lemma CompileAllOrder(root: Node, cwd: Path, compiles: Compiler, project: string, t: BuildTarget)
    ensures var built := CompileAll(root, cwd, compiles, project, t).1;
      var mainBuilt := MainBuilt(root, cwd, compiles, project, t);
      (mainBuilt ==> built != [] && built[0] == BinaryName(project, t)) &&
      var cmds := if mainBuilt then built[1..] else built;
      (exists execs :: Subsequence(cmds, BinaryNames(execs, t))) &&
      forall b :: b in cmds ==> exists e :: b == BinaryName(e, t) && compiles(CmdSource(e), t)
  {
    var main := BinaryName(project, t);
    var mainBuilt := MainBuilt(root, cwd, compiles, project, t);
    var r1 := if StatPath(root, cwd, "main.go").Some? then CompileStep(root, cwd, compiles, t, ".", main).0 else root;
    var built := CompileAll(root, cwd, compiles, project, t).1;
    var cmds := if mainBuilt then built[1..] else built;
    if Discover(r1, cwd).Ok? {
      var execs := Discover(r1, cwd).value;
      CompileCommandsOrder(r1, cwd, compiles, t, execs);
      assert cmds == CompileCommands(r1, cwd, compiles, t, execs).1;
    } else {
      assert cmds == [];
      assert Subsequence(cmds, BinaryNames([], t));
    }
  }

  /**
   * After the compile phase every binary built is a file at `bin/<binary>`;
   * no file was removed, and when nothing was built no file changed.
   */
  lemma CompileAllFiles(root: Node, cwd: Path, compiles: Compiler, project: string, t: BuildTarget, s: string)
    ensures var (r, built) := CompileAll(root, cwd, compiles, project, t);
      (forall b :: b in built ==> IsFile(StatPath(r, cwd, BinPath(b)))) &&
      (IsFile(StatPath(root, cwd, s)) ==> IsFile(StatPath(r, cwd, s))) &&
      (built == [] && IsFile(StatPath(root, cwd, s)) ==> StatPath(r, cwd, s) == StatPath(root, cwd, s)) &&
      (root.Dir? ==> r.Dir?)
  {
    var main := BinaryName(project, t);
    var r1 := if StatPath(root, cwd, "main.go").Some? then CompileStep(root, cwd, compiles, t, ".", main).0 else root;
    var mainBuilt := if MainBuilt(root, cwd, compiles, project, t) then [main] else [];
    CompileStepFiles(root, cwd, compiles, t, ".", main, s);
    CompileStepFiles(root, cwd, compiles, t, ".", main, BinPath(main));
    if Discover(r1, cwd).Ok? {
      var execs := Discover(r1, cwd).value;
      var (r, cmds) := CompileCommands(r1, cwd, compiles, t, execs);
      CompileCommandsKeep(r1, cwd, compiles, t, execs, s);
      CompileCommandsKeep(r1, cwd, compiles, t, execs, BinPath(main));
      CompileCommandsFiles(r1, cwd, compiles, t, execs);
      assert CompileAll(root, cwd, compiles, project, t) == (r, mainBuilt + cmds);
    }
  }

  // ----------------------------------------------------------- completeness

  /**
   * `bin` can be created (no file lies on its path) and holds no directory
   * where a binary would go.
   */
  ghost predicate BinReady(root: Node, cwd: Path)
  {
    MkdirAllPath(root, cwd, "bin").Ok? &&
    forall x :: Paths.Simple(x) ==> !IsDir(StatPath(root, cwd, BinPath(x)))
  }

  /** The binary of an ordinary name is an ordinary name. */
  lemma BinaryNameSimple(name: string, t: BuildTarget)
    requires Paths.Simple(name)
    ensures Paths.Simple(BinaryName(name, t))
  {
    if t.os == "windows" {
      assert BinaryName(name, t)[|name|..] == ".exe";
    }
  }

  /**
   * When `bin` is ready, a build succeeds exactly when the compiler accepts
   * it, `bin` stays ready, and nothing outside `bin` changes.
   */
  lemma CompileStepComplete(root: Node, cwd: Path, compiles: Compiler, t: BuildTarget, source: string, binary: string)
    requires Paths.Simple(binary) && BinReady(root, cwd)
    ensures var (r, ok) := CompileStep(root, cwd, compiles, t, source, binary);
      ok == compiles(source, t) && BinReady(r, cwd) &&
      forall q :: !IsPrefix(q, cwd + ["bin"]) && !IsPrefix(cwd + ["bin"], q) ==> Lookup(r, q) == Lookup(root, q)
  {
    var bin := cwd + ["bin"];
    Paths.LocateName(cwd, "bin");
    if compiles(source, t) {
      var withBin := MkdirAllAt(root, bin).value;
      MkdirAllKeepsFiles(root, bin, bin);
      var p := cwd + ["bin", binary];
      Paths.LocateChild(cwd, "bin", binary);
      assert p[..|p| - 1] == bin;
      MkdirAllElsewhere(root, bin, p);
      var written := WriteFileAt(withBin, p, Blob(source), ExecPerm).value;
      assert CompileStep(root, cwd, compiles, t, source, binary) == (written, true);
      WriteDirs(withBin, p, Blob(source), ExecPerm, bin);
      DirMkdirAll(written, bin);
      forall x | Paths.Simple(x)
        ensures !IsDir(StatPath(written, cwd, BinPath(x)))
      {
        Paths.LocateChild(cwd, "bin", x);
        var q := cwd + ["bin", x];
        assert q[..|bin|] == bin;
        assert StatPath(root, cwd, BinPath(x)) == Lookup(root, q);
        WriteDirs(withBin, p, Blob(source), ExecPerm, q);
        MkdirAllElsewhere(root, bin, q);
      }
      forall q | !IsPrefix(q, bin) && !IsPrefix(bin, q)
        ensures Lookup(written, q) == Lookup(root, q)
      {
        MkdirAllElsewhere(root, bin, q);
        WriteFileEffect(withBin, p, Blob(source), ExecPerm, q);
        if IsPrefix(q, p) {
          PrefixOfParent(q, p);
        }
      }
    }
  }

  /** The entry points whose build the compiler accepts, in order. */
  function Accepted(compiles: Compiler, t: BuildTarget, execs: seq<string>): (r: seq<string>)
    ensures Subsequence(r, execs)
    ensures forall e :: e in r <==> e in execs && compiles(CmdSource(e), t)
  {
    if execs == [] then []
    else
      var init, e := execs[..|execs| - 1], execs[|execs| - 1];
      Snoc(execs);
      SubsequenceExtend(Accepted(compiles, t, init), init, e, compiles(CmdSource(e), t));
      Accepted(compiles, t, init) + if compiles(CmdSource(e), t) then [e] else []
  }

  /**
   * When `bin` is ready and every entry point has an ordinary name, the
   * binaries built are exactly those of the entry points the compiler
   * accepts, in order, and `bin` stays ready.
   */
  lemma {:induction false} CompileCommandsComplete(root: Node, cwd: Path, compiles: Compiler, t: BuildTarget, execs: seq<string>)
    requires BinReady(root, cwd)
    requires forall i :: 0 <= i < |execs| ==> Paths.Simple(execs[i])
    ensures var (r, built) := CompileCommands(root, cwd, compiles, t, execs);
      built == BinaryNames(Accepted(compiles, t, execs), t) && BinReady(r, cwd)
    decreases |execs|
  {
    if execs != [] {
      var init, e := execs[..|execs| - 1], execs[|execs| - 1];
      CompileCommandsComplete(root, cwd, compiles, t, init);
      var (r, built) := CompileCommands(root, cwd, compiles, t, init);
      BinaryNameSimple(e, t);
      CompileStepComplete(r, cwd, compiles, t, CmdSource(e), BinaryName(e, t));
      var acc := Accepted(compiles, t, init);
      if compiles(CmdSource(e), t) {
        BinaryNamesSnoc(acc, e, t);
      } else {
        assert acc + [] == acc;
      }
    }
  }

  /**
   * When `bin` is ready, the project name is an ordinary name and the tree
   * is well formed, the compile phase builds exactly the root binary when
   * `main.go` exists and the compiler accepts it, followed by the binaries
   * of the discovered entry points the compiler accepts, in name order.
   */
  lemma CompileAllComplete(root: Node, cwd: Path, compiles: Compiler, project: string, t: BuildTarget)
    requires WellFormed(root) && Paths.Simple(project) && BinReady(root, cwd)
    ensures CompileAll(root, cwd, compiles, project, t).1 ==
      (if StatPath(root, cwd, "main.go").Some? && compiles(".", t) then [BinaryName(project, t)] else []) +
      (if Discover(root, cwd).Ok? then BinaryNames(Accepted(compiles, t, Discover(root, cwd).value), t) else [])
  {
    var main := BinaryName(project, t);
    BinaryNameSimple(project, t);
    var r1 := root;
    if StatPath(root, cwd, "main.go").Some? {
      r1 := CompileStep(root, cwd, compiles, t, ".", main).0;
      MainStepKeepsDiscovery(root, cwd, compiles, t, main);
    }
    DiscoverIncreasing(root, cwd);
    if Discover(root, cwd).Ok? {
      CompileCommandsComplete(r1, cwd, compiles, t, Discover(root, cwd).value);
    }
  }

  /** Building the root binary leaves `bin` ready and changes nothing discovery reads. */
  lemma MainStepKeepsDiscovery(root: Node, cwd: Path, compiles: Compiler, t: BuildTarget, main: string)
    requires WellFormed(root) && Paths.Simple(main) && BinReady(root, cwd)
    ensures var (r, ok) := CompileStep(root, cwd, compiles, t, ".", main);
      ok == compiles(".", t) && BinReady(r, cwd) && Discover(r, cwd) == Discover(root, cwd)
  {
    var r := CompileStep(root, cwd, compiles, t, ".", main).0;
    CompileStepComplete(root, cwd, compiles, t, ".", main);
    forall q | IsPrefix(cwd + [CmdDir], q)
      ensures Lookup(r, q) == Lookup(root, q)
    {
      assert q[|cwd|] == CmdDir;
      assert (cwd + ["bin"])[|cwd|] == "bin";
    }
    DiscoverSame(root, r, cwd);
  }

  // ---------------------------------------------------------------- cleanup

  /** `os.Remove(filepath.Join("bin", b))` for each binary in order; failures are ignored. */
  function Cleanup(root: Node, cwd: Path, built: seq<string>): Node
    decreases |built|
  {
    if built == [] then root
    else
      var r := Cleanup(root, cwd, built[..|built| - 1]);
      match RemovePath(r, cwd, BinPath(built[|built| - 1]))
      case Ok(r') => r'
      case Err(_) => r
  }

  method RemoveBinaries(d: Disk, built: seq<string>)
    requires d.Valid()
    modifies d
    ensures d.Valid()
    ensures d.root == Cleanup(old(d.root), d.cwd, built)
  {
    var i := 0;
    while i < |built|
      invariant 0 <= i <= |built|
      invariant d.Valid()
      invariant d.root == Cleanup(old(d.root), d.cwd, built[..i])
    {
      PrefixStep(built, i);
      var _ := d.Remove(BinPath(built[i]));
      i := i + 1;
    }
    Whole(built);
  }

  /**
   * When every binary path holds a file or nothing, the cleanup leaves none
   * of them behind.
   */
  lemma {:induction false} CleanupRemoves(root: Node, cwd: Path, built: seq<string>)
    requires root.Dir?
    requires forall b :: b in built ==> FileOrNone(StatPath(root, cwd, BinPath(b)))
    ensures forall b :: b in built ==> StatPath(Cleanup(root, cwd, built), cwd, BinPath(b)).None?
    ensures Cleanup(root, cwd, built).Dir?
    decreases |built|
  {
    if built != [] {
      var init, last := built[..|built| - 1], built[|built| - 1];
      var r := Cleanup(root, cwd, init);
      CleanupKeeps(root, cwd, init, BinPath(last));
      CleanupRemoves(root, cwd, init);
      var p := BinPath(last);
      if RemovePath(r, cwd, p).Ok? {
        forall b | b in built
          ensures StatPath(Cleanup(root, cwd, built), cwd, BinPath(b)).None?
        {
          RemovePathEffect(r, cwd, p, BinPath(b));
          if b != last {
            assert b in init;
          }
        }
      } else {
        forall b | b in built
          ensures StatPath(Cleanup(root, cwd, built), cwd, BinPath(b)).None?
        {
          if b != last {
            assert b in init;
          } else {
            assert StatPath(r, cwd, p).None?;
          }
        }
      }
    }
  }

  /** The cleanup turns no file-or-missing path into a directory, and keeps the root a directory. */
  lemma {:induction false} CleanupKeeps(root: Node, cwd: Path, built: seq<string>, s: string)
    requires root.Dir?
    requires FileOrNone(StatPath(root, cwd, s))
    ensures FileOrNone(StatPath(Cleanup(root, cwd, built), cwd, s))
    ensures Cleanup(root, cwd, built).Dir?
    decreases |built|
  {
    if built != [] {
      var init := built[..|built| - 1];
      CleanupKeeps(root, cwd, init, s);
      var r := Cleanup(root, cwd, init);
      var p := BinPath(built[|built| - 1]);
      if RemovePath(r, cwd, p).Ok? {
        RemovePathEffect(r, cwd, p, s);
      }
    }
  }

  // ---------------------------------------------------------- one target

  datatype BuildError =
    | NoArtifacts
    | ManifestUpdateFailed(reason: UpdateError)
    | PackageFailed

  /** The path of the package of `t`: `filepath.Join(distDir, <package name>)`. */
  function PackagePath(distDir: string, project: string, t: BuildTarget): string
  {
    Paths.Join(distDir, PackageName(project, t))
  }

  /**
   * `buildForTarget`: the tree it leaves and either the binaries it built
   * and packed or why it failed.  Nothing built is an error before the
   * manifest is touched; the binaries are removed only once the package is
   * complete.
   */
  function TargetBuild(root: Node, cwd: Path, compiles: Compiler, config: BuildConfig, project: string,
                       t: BuildTarget, distDir: string, buildTime: string): (Node, Result<seq<string>, BuildError>)
  {
    var (compiled, built) := CompileAll(root, cwd, compiles, project, t);
    if built == [] then (compiled, Err(NoArtifacts))
    else match UpdateForTarget(compiled, cwd, t, buildTime)
      case Err(e) => (compiled, Err(ManifestUpdateFailed(e)))
      case Ok(stamped) =>
        var (packed, ok) := CreatePackageSpec(stamped, cwd, config, PackagePath(distDir, project, t), built);
        if !ok then (packed, Err(PackageFailed))
        else (Cleanup(packed, cwd, built), Ok(built))
  }

  method BuildForTarget(d: Disk, compiles: Compiler, config: BuildConfig, project: string,
                        t: BuildTarget, distDir: string, buildTime: string) returns (r: Result<seq<string>, BuildError>)
    requires d.Valid()
    modifies d
    ensures d.Valid()
    ensures (d.root, r) == TargetBuild(old(d.root), d.cwd, compiles, config, project, t, distDir, buildTime)
  {
    var builtBinaries := CompileBinaries(d, compiles, project, t);
    if |builtBinaries| == 0 {
      return Err(NoArtifacts);
    }
    var err := UpdateManifestForTarget(d, t, buildTime);
    if err.Some? {
      return Err(ManifestUpdateFailed(err.value));
    }
    var packageName := PackageName(project, t);
    var packagePath := Paths.Join(distDir, packageName);
    var ok := CreatePackage(d, config, packagePath, builtBinaries);
    if !ok {
      return Err(PackageFailed);
    }
    RemoveBinaries(d, builtBinaries);
    return Ok(builtBinaries);
  }

  /** Stamping the manifest and packing remove no file. */
  lemma AfterCompileKeepsFiles(compiled: Node, cwd: Path, config: BuildConfig, project: string,
                               t: BuildTarget, distDir: string, buildTime: string, built: seq<string>, s: string)
    requires IsFile(StatPath(compiled, cwd, s))
    ensures var u := UpdateForTarget(compiled, cwd, t, buildTime);
      u.Ok? ==> (IsFile(StatPath(u.value, cwd, s)) &&
        IsFile(StatPath(CreatePackageSpec(u.value, cwd, config, PackagePath(distDir, project, t), built).0, cwd, s)) &&
        (compiled.Dir? ==> CreatePackageSpec(u.value, cwd, config, PackagePath(distDir, project, t), built).0.Dir?))
  {
    UpdateKeepsFiles(compiled, cwd, t, buildTime, s);
    var u := UpdateForTarget(compiled, cwd, t, buildTime);
    if u.Ok? {
      CreatePackageKeepsFiles(u.value, cwd, config, PackagePath(distDir, project, t), built, s);
    }
  }

  /**
   * What a target leaves of its binaries: after a success none of the
   * binaries it built is left in `bin`; after a failure every binary it
   * compiled is still there, since the cleanup only runs once the package
   * is complete.  And when nothing could be built, the target fails before
   * the manifest or any package is touched: no file changes.
   */
  lemma TargetBinaries(root: Node, cwd: Path, compiles: Compiler, config: BuildConfig, project: string,
                       t: BuildTarget, distDir: string, buildTime: string, s: string)
    requires root.Dir?
    ensures var (r, res) := TargetBuild(root, cwd, compiles, config, project, t, distDir, buildTime);
      var compiled := CompileAll(root, cwd, compiles, project, t).1;
      (res.Ok? ==> res.value == compiled && forall b :: b in compiled ==> StatPath(r, cwd, BinPath(b)).None?) &&
      (res.Err? ==> forall b :: b in compiled ==> IsFile(StatPath(r, cwd, BinPath(b)))) &&
      (compiled == [] ==> (res == Err(NoArtifacts) &&
        (IsFile(StatPath(root, cwd, s)) ==> StatPath(r, cwd, s) == StatPath(root, cwd, s))))
  {
    var (c, built) := CompileAll(root, cwd, compiles, project, t);
    CompileAllFiles(root, cwd, compiles, project, t, s);
    if built != [] {
      var u := UpdateForTarget(c, cwd, t, buildTime);
      forall b | b in built
        ensures IsFile(StatPath(c, cwd, BinPath(b)))
      {
        CompileAllFiles(root, cwd, compiles, project, t, BinPath(b));
      }
      if u.Ok? {
        var path := PackagePath(distDir, project, t);
        var (packed, ok) := CreatePackageSpec(u.value, cwd, config, path, built);
        forall b | b in built
          ensures IsFile(StatPath(packed, cwd, BinPath(b)))
        {
          AfterCompileKeepsFiles(c, cwd, config, project, t, distDir, buildTime, built, BinPath(b));
        }
        if ok {
          AfterCompileKeepsFiles(c, cwd, config, project, t, distDir, buildTime, built, BinPath(built[0]));
          CleanupRemoves(packed, cwd, built);
        }
      }
    }
  }

  // --------------------------------------------------------- whole project

  /** What the build of one target reported. */
  datatype TargetReport = TargetReport(target: BuildTarget, result: Result<seq<string>, BuildError>)

  /** Building one target: the tree before it, the target and its position to the new tree and result. */
  type TargetStep = (Node, BuildTarget, nat) -> (Node, Result<seq<string>, BuildError>)

  /**
   * The targets taken in order by `step`, each in the tree the earlier ones
   * left; a failed target does not stop the loop.
   */
  function RunTargets(step: TargetStep, root: Node, targets: seq<BuildTarget>): (r: (Node, seq<TargetReport>))
    ensures |r.1| == |targets|
    decreases |targets|
  {
    if targets == [] then (root, [])
    else
      var n := |targets| - 1;
      var (r, reports) := RunTargets(step, root, targets[..n]);
      var (r', result) := step(r, targets[n], n);
      (r', reports + [TargetReport(targets[n], result)])
  }

  /** Report `i` is `step` on target `i` in the tree the targets before it left. */
  lemma {:induction false} RunTargetsReport(step: TargetStep, root: Node, targets: seq<BuildTarget>, i: nat)
    requires i < |targets|
    ensures RunTargets(step, root, targets).1[i] ==
      TargetReport(targets[i], step(RunTargets(step, root, targets[..i]).0, targets[i], i).1)
    decreases |targets|
  {
    var n := |targets| - 1;
    if i < n {
      RunTargetsReport(step, root, targets[..n], i);
      assert targets[..n][..i] == targets[..i];
    } else {
      assert targets[..n] == targets[..i];
    }
  }

  /**
   * `buildProject`'s target loop: the targets built in order, each in the
   * tree the earlier ones left, target `i` stamped with `clock(i)`.
   */
  function BuildTargets(root: Node, cwd: Path, compiles: Compiler, config: BuildConfig, project: string,
                        targets: seq<BuildTarget>, distDir: string, clock: nat -> string): (Node, seq<TargetReport>)
  {
    RunTargets((r: Node, t: BuildTarget, k: nat) => TargetBuild(r, cwd, compiles, config, project, t, distDir, clock(k)), root, targets)
  }

  /**
   * Each report is the build of its target in the tree the targets before
   * it left: a failure of one target never keeps a later one from being
   * built.
   */
  lemma ReportOfEachTarget(root: Node, cwd: Path, compiles: Compiler, config: BuildConfig, project: string,
                           targets: seq<BuildTarget>, distDir: string, clock: nat -> string, i: nat)
    requires i < |targets|
    ensures var before := BuildTargets(root, cwd, compiles, config, project, targets[..i], distDir, clock).0;
      var report := BuildTargets(root, cwd, compiles, config, project, targets, distDir, clock).1[i];
      report.target == targets[i] &&
      report.result == TargetBuild(before, cwd, compiles, config, project, targets[i], distDir, clock(i)).1
  {
    RunTargetsReport((r: Node, t: BuildTarget, k: nat) => TargetBuild(r, cwd, compiles, config, project, t, distDir, clock(k)), root, targets, i);
  }

  /** A `json.Unmarshal` result or a type assertion Go would panic on. */
  datatype Crash = ConfigIsNull | ManifestIsNull | NameNotString

  datatype ProjectError =
    | NotAProject
    | ManifestUnreadable(cause: ManifestError)
    | TargetsInvalid(selectorError: TargetError)
    | CleanFailed
    | MkdirFailed

  datatype Outcome =
    | Finished(reports: seq<TargetReport>)
    | Failed(error: ProjectError)
    | Crashed(reason: Crash)

  /** The output directory: the configured one, "dist" when it is empty. */
  function DistDir(config: BuildConfig): (r: string)
    ensures r != ""
    ensures config.outputDir != "" ==> r == config.outputDir
    ensures config.outputDir == "" ==> r == "dist"
  {
    if config.outputDir == "" then "dist" else config.outputDir
  }

  /**
   * `buildProject` for the selector `selector` on the host `host`: the
   * project must have a manifest, the configuration is loaded, the manifest's
   * `name` must be a string, the targets are resolved, the output directory
   * is emptied and recreated, and every target is built.
   */
  function BuildProjectRun(root: Node, cwd: Path, compiles: Compiler, selector: string, host: BuildTarget,
                           clock: nat -> string): (Node, Outcome)
  {
    if StatPath(root, cwd, ManifestFile).None? then (root, Failed(NotAProject))
    else match LoadBuildConfig(root, cwd)
      case NilConfig => (root, Crashed(ConfigIsNull))
      case Loaded(config) => BuildLoaded(root, cwd, compiles, config, selector, host, clock)
      case Fallback(config) => BuildLoaded(root, cwd, compiles, config, selector, host, clock)
  }

  /** `buildProject` once the configuration is in effect. */
  function BuildLoaded(root: Node, cwd: Path, compiles: Compiler, config: BuildConfig, selector: string,
                       host: BuildTarget, clock: nat -> string): (Node, Outcome)
  {
    match ReadManifest(root, cwd)
    case Err(NullManifest) => (root, Crashed(ManifestIsNull))
    case Err(e) => (root, Failed(ManifestUnreadable(e)))
    case Ok(m) =>
      if !("name" in m && m["name"].JStr?) then (root, Crashed(NameNotString))
      else match Resolve(selector, host)
        case Err(e) => (root, Failed(TargetsInvalid(e)))
        case Ok(targets) =>
          var distDir := DistDir(config);
          var (cleaned, cleanOk) := RemoveAllPath(root, cwd, distDir);
          if !cleanOk then (cleaned, Failed(CleanFailed))
          else match MkdirAllPath(cleaned, cwd, distDir)
            case Err(_) => (cleaned, Failed(MkdirFailed))
            case Ok(ready) =>
              var (r, reports) := BuildTargets(ready, cwd, compiles, config, m["name"].s, targets, distDir, clock);
              (r, Finished(reports))
  }

  method BuildProject(d: Disk, compiles: Compiler, selector: string, host: BuildTarget, clock: nat -> string)
    returns (outcome: Outcome)
    requires d.Valid()
    modifies d
    ensures d.Valid()
    ensures (d.root, outcome) == BuildProjectRun(old(d.root), d.cwd, compiles, selector, host, clock)
  {
    if d.Stat(ManifestFile).None? {
      return Failed(NotAProject);
    }
    var load := LoadBuildConfig(d.root, d.cwd);
    if load.NilConfig? {
      return Crashed(ConfigIsNull);
    }
    var config := load.config;
    var manifest := ReadManifest(d.root, d.cwd);
    if manifest.Err? {
      if manifest.error == NullManifest {
        return Crashed(ManifestIsNull);
      }
      return Failed(ManifestUnreadable(manifest.error));
    }
    var m := manifest.value;
    if !("name" in m && m["name"].JStr?) {
      return Crashed(NameNotString);
    }
    var projectName := m["name"].s;
    var targets := GetTargetsToBuild(selector, host);
    if targets.Err? {
      return Failed(TargetsInvalid(targets.error));
    }
    var distDir := config.outputDir;
    if distDir == "" {
      distDir := "dist";
    }
    var ok := d.RemoveAll(distDir);
    if !ok {
      return Failed(CleanFailed);
    }
    ok := d.MkdirAll(distDir);
    if !ok {
      return Failed(MkdirFailed);
    }
    var reports := BuildLoop(d, compiles, config, projectName, targets.value, distDir, clock);
    return Finished(reports);
  }

  /** The target loop of `buildProject`. */
  method BuildLoop(d: Disk, compiles: Compiler, config: BuildConfig, project: string,
                   targets: seq<BuildTarget>, distDir: string, clock: nat -> string) returns (reports: seq<TargetReport>)
    requires d.Valid()
    modifies d
    ensures d.Valid()
    ensures (d.root, reports) == BuildTargets(old(d.root), d.cwd, compiles, config, project, targets, distDir, clock)
  {
    reports := [];
    var i := 0;
    while i < |targets|
      invariant 0 <= i <= |targets|
      invariant d.Valid()
      invariant (d.root, reports) == BuildTargets(old(d.root), d.cwd, compiles, config, project, targets[..i], distDir, clock)
    {
      PrefixStep(targets, i);
      var result := BuildForTarget(d, compiles, config, project, targets[i], distDir, clock(i));
      reports := reports + [TargetReport(targets[i], result)];
      i := i + 1;
    }
    Whole(targets);
  }

  /**
   * Once the configuration is in effect: a finished run reported every
   * resolved target, in order; a run that failed before the output directory
   * was emptied, or crashed, changed nothing; a failed emptying changed
   * nothing unless the output directory ends in "." or "..", whose contents
   * it removed.
   */
  lemma LoadedOutline(root: Node, cwd: Path, compiles: Compiler, config: BuildConfig, selector: string,
                      host: BuildTarget, clock: nat -> string)
    ensures var (r, outcome) := BuildLoaded(root, cwd, compiles, config, selector, host, clock);
      (outcome.Finished? ==>
        Resolve(selector, host).Ok? &&
        |outcome.reports| == |Resolve(selector, host).value| &&
        forall i :: 0 <= i < |outcome.reports| ==> outcome.reports[i].target == Resolve(selector, host).value[i]) &&
      ((outcome.Failed? && outcome.error != MkdirFailed && outcome.error != CleanFailed) || outcome.Crashed? ==> r == root) &&
      (outcome == Failed(CleanFailed) && r != root ==> DotBase(DistDir(config)))
  {
    LoadedReports(root, cwd, compiles, config, selector, host, clock);
    LoadedUnchanged(root, cwd, compiles, config, selector, host, clock);
  }

  /** A finished run reported every resolved target, in order. */
  lemma LoadedReports(root: Node, cwd: Path, compiles: Compiler, config: BuildConfig, selector: string,
                      host: BuildTarget, clock: nat -> string)
    ensures var (r, outcome) := BuildLoaded(root, cwd, compiles, config, selector, host, clock);
      outcome.Finished? ==>
        Resolve(selector, host).Ok? &&
        |outcome.reports| == |Resolve(selector, host).value| &&
        forall i :: 0 <= i < |outcome.reports| ==> outcome.reports[i].target == Resolve(selector, host).value[i]
  {
    var m := ReadManifest(root, cwd);
    var resolved := Resolve(selector, host);
    var distDir := DistDir(config);
    if m.Ok? && "name" in m.value && m.value["name"].JStr? && resolved.Ok? && RemoveAllPath(root, cwd, distDir).1 {
      var cleaned := RemoveAllPath(root, cwd, distDir).0;
      if MkdirAllPath(cleaned, cwd, distDir).Ok? {
        var ready := MkdirAllPath(cleaned, cwd, distDir).value;
        var targets := resolved.value;
        var project := m.value["name"].s;
        var reports := BuildTargets(ready, cwd, compiles, config, project, targets, distDir, clock).1;
        forall i | 0 <= i < |reports|
          ensures reports[i].target == targets[i]
        {
          ReportOfEachTarget(ready, cwd, compiles, config, project, targets, distDir, clock, i);
        }
      }
    }
  }

  /**
   * Failures before the output directory is emptied, and crashes, change
   * nothing; a failed emptying changes something only for a last element "."
   * or "..".
   */
  lemma LoadedUnchanged(root: Node, cwd: Path, compiles: Compiler, config: BuildConfig, selector: string,
                        host: BuildTarget, clock: nat -> string)
    ensures var (r, outcome) := BuildLoaded(root, cwd, compiles, config, selector, host, clock);
      ((outcome.Failed? && outcome.error != MkdirFailed && outcome.error != CleanFailed) || outcome.Crashed? ==> r == root) &&
      (outcome == Failed(CleanFailed) && r != root ==> DotBase(DistDir(config)))
  {
    var m := ReadManifest(root, cwd);
    if m.Ok? && "name" in m.value && m.value["name"].JStr? && Resolve(selector, host).Ok? {
      var distDir := DistDir(config);
      var (cleaned, cleanOk) := RemoveAllPath(root, cwd, distDir);
      RemoveAllPathEffect(root, cwd, distDir);
      var outcome := BuildLoaded(root, cwd, compiles, config, selector, host, clock).1;
      if cleanOk {
        assert outcome.Finished? || outcome == Failed(MkdirFailed);
      } else {
        assert BuildLoaded(root, cwd, compiles, config, selector, host, clock) == (cleaned, Failed(CleanFailed));
      }
    }
  }

  /**
   * The run in outline: a project without a manifest fails with nothing
   * changed, before the configuration is even read; a finished run reported
   * every resolved target, in order; a failure before the output directory
   * is emptied, or a crash, changes nothing; a failed emptying changes
   * nothing unless the output directory in effect ends in "." or "..".
   */
  lemma ProjectOutline(root: Node, cwd: Path, compiles: Compiler, selector: string, host: BuildTarget, clock: nat -> string)
    ensures var (r, outcome) := BuildProjectRun(root, cwd, compiles, selector, host, clock);
      (StatPath(root, cwd, ManifestFile).None? ==> r == root && outcome == Failed(NotAProject)) &&
      (outcome.Finished? ==>
        Resolve(selector, host).Ok? &&
        |outcome.reports| == |Resolve(selector, host).value| &&
        forall i :: 0 <= i < |outcome.reports| ==> outcome.reports[i].target == Resolve(selector, host).value[i]) &&
      ((outcome.Failed? && outcome.error != MkdirFailed && outcome.error != CleanFailed) || outcome.Crashed? ==> r == root) &&
      (outcome == Failed(CleanFailed) && r != root ==> DotBase(DistDir(LoadBuildConfig(root, cwd).config)))
  {
    var load := LoadBuildConfig(root, cwd);
    if StatPath(root, cwd, ManifestFile).Some? && !load.NilConfig? {
      LoadedOutline(root, cwd, compiles, load.config, selector, host, clock);
    }
  }
}
