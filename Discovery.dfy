/**
 * Entry-point discovery (`discoverCmdExecutables`): every directory directly
 * under `cmd` that holds a `main.go` is the source of one executable.
 */
module Discovery {
  import opened Wrappers
  import Paths
  import opened FileTree

  const CmdDir: string := "cmd"

  /** `filepath.Join("cmd", name, "main.go")`. */
  function MainGoPath(name: string): string
  {
    Paths.Join(Paths.Join(CmdDir, name), "main.go")
  }

  /** A listed entry is an entry point when it is a directory and its `main.go` exists. */
  predicate IsEntryPoint(root: Node, cwd: Path, e: Entry)
  {
    e.node.Dir? && StatPath(root, cwd, MainGoPath(e.name)).Some?
  }

  /** The names of the entries that `keep` selects, in listing order. */
  function Select(keep: Entry -> bool, es: seq<Entry>): (r: seq<string>)
    ensures |r| <= |es|
  {
    if es == [] then []
    else (if keep(es[0]) then [es[0].name] else []) + Select(keep, es[1..])
  }

  /** Selection commutes with concatenation. */
  lemma {:induction false} SelectAppend(keep: Entry -> bool, a: seq<Entry>, b: seq<Entry>)
    ensures Select(keep, a + b) == Select(keep, a) + Select(keep, b)
  {
    if a == [] {
      assert a + b == b;
    } else {
      var head := if keep(a[0]) then [a[0].name] else [];
      assert (a + b)[0] == a[0];
      assert (a + b)[1..] == a[1..] + b;
      assert Select(keep, a + b) == head + Select(keep, a[1..] + b);
      SelectAppend(keep, a[1..], b);
      assert head + (Select(keep, a[1..]) + Select(keep, b)) == (head + Select(keep, a[1..])) + Select(keep, b);
    }
  }

  /** A name is selected exactly when some entry of that name is kept. */
  lemma {:induction false} SelectMembers(keep: Entry -> bool, es: seq<Entry>, name: string)
    ensures name in Select(keep, es) <==> exists i :: 0 <= i < |es| && es[i].name == name && keep(es[i])
  {
    if es != [] {
      SelectMembers(keep, es[1..], name);
      if name in Select(keep, es[1..]) {
        var i :| 0 <= i < |es[1..]| && es[1..][i].name == name && keep(es[1..][i]);
        assert es[i + 1] == es[1..][i];
      }
      if exists i :: 0 <= i < |es| && es[i].name == name && keep(es[i]) {
        var i :| 0 <= i < |es| && es[i].name == name && keep(es[i]);
        if i > 0 {
          assert es[1..][i - 1] == es[i];
        }
      }
    }
  }

  /**
   * The names selected from a well-formed listing are ordinary names, in
   * strictly increasing order.
   */
  lemma {:induction false} SelectIncreasing(keep: Entry -> bool, es: seq<Entry>)
    requires WellFormedIn(es)
    ensures var r := Select(keep, es);
      Increasing(r) && forall i :: 0 <= i < |r| ==> Paths.Simple(r[i])
    decreases es
  {
    if es != [] {
      SelectIncreasing(keep, es[1..]);
      var rest := Select(keep, es[1..]);
      forall k | 0 <= k < |rest|
        ensures Less(es[0].name, rest[k])
      {
        SelectMembers(keep, es[1..], rest[k]);
        var i :| 0 <= i < |es[1..]| && es[1..][i].name == rest[k] && keep(es[1..][i]);
      }
      var head := if keep(es[0]) then [es[0].name] else [];
      var r := head + rest;
      assert Select(keep, es) == r;
      forall i, j | 0 <= i < j < |r|
        ensures Less(r[i], r[j])
      {
        assert r[j] == rest[j - |head|];
        if i >= |head| {
          assert r[i] == rest[i - |head|];
        }
      }
      forall i | 0 <= i < |r|
        ensures Paths.Simple(r[i])
      {
        if i >= |head| {
          assert r[i] == rest[i - |head|];
        }
      }
    }
  }

  /** The names of the entry points among `es`, in listing order. */
  function EntryPoints(root: Node, cwd: Path, es: seq<Entry>): seq<string>
  {
    Select(e => IsEntryPoint(root, cwd, e), es)
  }

  /**
   * Selecting entry points commutes with concatenation: the result keeps
   * the listing's order.
   */
  lemma EntryPointsAppend(root: Node, cwd: Path, a: seq<Entry>, b: seq<Entry>)
    ensures EntryPoints(root, cwd, a + b) == EntryPoints(root, cwd, a) + EntryPoints(root, cwd, b)
  {
    SelectAppend(e => IsEntryPoint(root, cwd, e), a, b);
  }

  /** A name is selected exactly when some listed entry of that name is an entry point. */
  lemma EntryPointsMembers(root: Node, cwd: Path, es: seq<Entry>, name: string)
    ensures name in EntryPoints(root, cwd, es) <==>
      exists i :: 0 <= i < |es| && es[i].name == name && IsEntryPoint(root, cwd, es[i])
  {
    SelectMembers(e => IsEntryPoint(root, cwd, e), es, name);
  }

  datatype DiscoveryError = CmdNotADirectory

  /**
   * `discoverCmdExecutables`: no `cmd` is no entry points, a `cmd` that
   * cannot be listed is an error, otherwise the entry points in listing
   * (name) order.
   */
  function Discover(root: Node, cwd: Path): Result<seq<string>, DiscoveryError>
  {
    match StatPath(root, cwd, CmdDir)
    case None => Ok([])
    case Some(File(_, _)) => Err(CmdNotADirectory)
    case Some(Dir(es)) => Ok(EntryPoints(root, cwd, es))
  }

  /**
   * In a well-formed tree the entry points are found in strictly
   * increasing name order, as `os.ReadDir` lists them, and each is an
   * ordinary name.
   */
  lemma DiscoverIncreasing(root: Node, cwd: Path)
    requires WellFormed(root)
    ensures var r := Discover(root, cwd);
      r.Ok? ==> Increasing(r.value) && forall i :: 0 <= i < |r.value| ==> Paths.Simple(r.value[i])
  {
    var cmd := StatPath(root, cwd, CmdDir);
    if cmd.Some? && cmd.value.Dir? {
      LookupWellFormed(root, Paths.Locate(cwd, CmdDir).value);
      SelectIncreasing(e => IsEntryPoint(root, cwd, e), cmd.value.entries);
    }
  }

  /** The `main.go` of an ordinary entry name lies at `cmd/<name>/main.go` below the working directory. */
  lemma LocateMainGo(cwd: Path, name: string)
    requires Paths.Simple(name)
    ensures Paths.Locate(cwd, MainGoPath(name)) == Some(cwd + [CmdDir, name, "main.go"])
  {
    Paths.JoinThree(CmdDir, name, "main.go");
    Paths.LocateThree(cwd, CmdDir, name, "main.go");
  }

  /** Two selections that agree on every entry of a listing select the same names. */
  lemma {:induction false} SelectSame(keep: Entry -> bool, other: Entry -> bool, es: seq<Entry>)
    requires forall i :: 0 <= i < |es| ==> keep(es[i]) == other(es[i])
    ensures Select(keep, es) == Select(other, es)
  {
    if es != [] {
      assert forall i :: 0 <= i < |es[1..]| ==> es[1..][i] == es[i + 1];
      SelectSame(keep, other, es[1..]);
    }
  }

  /**
   * Discovery reads nothing outside `cmd`: two well-formed trees that agree
   * on `cmd` and everything below it discover the same entry points.
   */
  lemma DiscoverSame(root: Node, other: Node, cwd: Path)
    requires WellFormed(root)
    requires forall q :: IsPrefix(cwd + [CmdDir], q) ==> Lookup(other, q) == Lookup(root, q)
    ensures Discover(other, cwd) == Discover(root, cwd)
  {
    var c := cwd + [CmdDir];
    Paths.LocateName(cwd, CmdDir);
    assert IsPrefix(c, c);
    var cmd := Lookup(root, c);
    if cmd.Some? && cmd.value.Dir? {
      var es := cmd.value.entries;
      LookupWellFormed(root, c);
      forall i | 0 <= i < |es|
        ensures IsEntryPoint(root, cwd, es[i]) == IsEntryPoint(other, cwd, es[i])
      {
        WellFormedEntry(es, i);
        LocateMainGo(cwd, es[i].name);
        var m := cwd + [CmdDir, es[i].name, "main.go"];
        assert m[..|c|] == c;
      }
      SelectSame(e => IsEntryPoint(root, cwd, e), e => IsEntryPoint(other, cwd, e), es);
    }
  }

  /** `discoverCmdExecutables`, appending one name per qualifying entry. */
  method DiscoverCmdExecutables(d: Disk) returns (r: Result<seq<string>, DiscoveryError>)
    requires d.Valid()
    ensures r == Discover(d.root, d.cwd)
    ensures r.Ok? ==> Increasing(r.value)
  {
    DiscoverIncreasing(d.root, d.cwd);
    var cmd := d.Stat(CmdDir);
    if cmd.None? {
      return Ok([]);
    }
    if cmd.value.File? {
      return Err(CmdNotADirectory);
    }
    var es := cmd.value.entries;
    var executables: seq<string> := [];
    var i := 0;
    while i < |es|
      invariant 0 <= i <= |es|
      invariant executables == EntryPoints(d.root, d.cwd, es[..i])
    {
      assert es[..i + 1] == es[..i] + [es[i]];
      EntryPointsAppend(d.root, d.cwd, es[..i], [es[i]]);
      if es[i].node.Dir? {
        var main := d.Stat(MainGoPath(es[i].name));
        if main.Some? {
          executables := executables + [es[i].name];
        }
      }
      i := i + 1;
    }
    assert es[..i] == es;
    return Ok(executables);
  }
}
