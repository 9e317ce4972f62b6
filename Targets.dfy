/**
 * Build-target selection: the fixed table of supported platforms and the
 * resolution of the `--target` selector (`getTargetsToBuild`).
 */
module Targets {
  import opened Wrappers
  import Paths

  /** An operating system and architecture pair, as `GOOS`/`GOARCH` name them. */
  datatype BuildTarget = BuildTarget(os: string, arch: string)

  /** The supported platforms, in their declared order. */
  const Matrix: seq<BuildTarget> := [
    BuildTarget("windows", "386"),
    BuildTarget("windows", "amd64"),
    BuildTarget("windows", "arm64"),
    BuildTarget("darwin", "amd64"),
    BuildTarget("darwin", "arm64"),
    BuildTarget("linux", "386"),
    BuildTarget("linux", "amd64"),
    BuildTarget("linux", "arm64")
  ]

  datatype TargetError =
    | InvalidSelector(selector: string)
    | Unsupported(os: string, arch: string)

  /**
   * What a selector denotes: the empty selector is the host platform, "all"
   * the whole table, anything else must be exactly `os/arch` naming a row of
   * the table.
   */
  function Resolve(selector: string, host: BuildTarget): Result<seq<BuildTarget>, TargetError>
  {
    if selector == "" then Ok([host])
    else if selector == "all" then Ok(Matrix)
    else
      var parts := Paths.SplitOn(selector, '/');
      if |parts| != 2 then Err(InvalidSelector(selector))
      else if BuildTarget(parts[0], parts[1]) in Matrix then Ok([BuildTarget(parts[0], parts[1])])
      else Err(Unsupported(parts[0], parts[1]))
  }

  /** `getTargetsToBuild`: a linear search of the table. */
  method GetTargetsToBuild(selector: string, host: BuildTarget) returns (r: Result<seq<BuildTarget>, TargetError>)
    ensures r == Resolve(selector, host)
  {
    if selector == "" {
      return Ok([host]);
    }
    if selector == "all" {
      return Ok(Matrix);
    }
    var parts := Paths.SplitOn(selector, '/');
    if |parts| != 2 {
      return Err(InvalidSelector(selector));
    }
    var os, arch := parts[0], parts[1];
    var i := 0;
    while i < |Matrix|
      invariant 0 <= i <= |Matrix|
      invariant forall j :: 0 <= j < i ==> Matrix[j] != BuildTarget(os, arch)
    {
      if Matrix[i].os == os && Matrix[i].arch == arch {
        return Ok([BuildTarget(os, arch)]);
      }
      i := i + 1;
    }
    return Err(Unsupported(os, arch));
  }

  /** No table row holds a '/'. */
  lemma MatrixSlashFree(t: BuildTarget)
    requires t in Matrix
    ensures '/' !in t.os && '/' !in t.arch
  {
  }

  /**
   * An `os/arch` selector of two separator-free halves resolves to that one
   * pair when the table has it, and to an unsupported-target error otherwise.
   */
  lemma ResolvePair(os: string, arch: string, host: BuildTarget)
    requires '/' !in os && '/' !in arch
    ensures Resolve(os + "/" + arch, host) ==
      if BuildTarget(os, arch) in Matrix then Ok([BuildTarget(os, arch)]) else Err(Unsupported(os, arch))
  {
    Paths.SplitOnPair(os, arch, '/');
    assert os + "/" + arch != "" && os + "/" + arch != "all" by {
      assert (os + "/" + arch)[|os|] == '/';
    }
  }

  /**
   * Apart from "" and "all", a selector resolves to the singleton `[t]`
   * exactly when it is `t.os + "/" + t.arch` for a row `t` of the table; a
   * selector without exactly one '/' is invalid; and the result is never
   * more than one row.
   */
  lemma ResolveSpecific(selector: string, host: BuildTarget, t: BuildTarget)
    requires selector != "" && selector != "all"
    ensures Resolve(selector, host) == Ok([t]) <==> t in Matrix && selector == t.os + "/" + t.arch
    ensures Resolve(selector, host) == Err(InvalidSelector(selector)) <==> Paths.CountChar(selector, '/') != 1
    ensures Resolve(selector, host).Ok? ==> |Resolve(selector, host).value| == 1 && Resolve(selector, host).value[0] in Matrix
  {
    var parts := Paths.SplitOn(selector, '/');
    Paths.SplitOnSpec(selector, '/');
    if |parts| == 2 {
      assert Paths.JoinWith(parts, '/') == parts[0] + "/" + parts[1];
    }
    if t in Matrix && selector == t.os + "/" + t.arch {
      MatrixSlashFree(t);
      ResolvePair(t.os, t.arch, host);
    }
  }

  /** The empty selector is the host alone; "all" is the table in its order. */
  lemma ResolveDefaults(host: BuildTarget)
    ensures Resolve("", host) == Ok([host])
    ensures Resolve("all", host) == Ok(Matrix) && |Matrix| == 8
  {
  }
}
