/**
 * The build configuration read from `.dscli.json`: its decoding
 * (`loadBuildConfig`), the decoding of its `assets` list (`parseAssets`) and
 * the exclusion test (`isExcluded`).
 */
module Assets {
  import opened Wrappers
  import opened Json
  import Paths
  import Glob
  import opened FileTree

  /** Where an asset is read from and where it lands in the archive. */
  datatype AssetConfig = AssetConfig(source: string, output: string)

  /**
   * `BuildConfig`: `assets` is kept as the raw decoded JSON value (`JNull`
   * for Go's nil), since it is decoded only when the archive is assembled.
   */
  datatype BuildConfig = BuildConfig(assets: Value, excludes: seq<string>, outputDir: string)

  /** The configuration used when `.dscli.json` is absent or unusable. */
  const DefaultConfig: BuildConfig := BuildConfig(JArr([]), [], "dist")

  const ConfigFile: string := ".dscli.json"

  // ----------------------------------------------------------- parseAssets

  datatype AssetError = FieldsMissing | UnsupportedItem | NotAnArray

  /** One item of the list: a bare string, or an object with string `source` and `output`. */
  function ParseItem(v: Value): Result<AssetConfig, AssetError>
  {
    match v
    case JStr(s) => Ok(AssetConfig(s, s))
    case JObj(m) =>
      if "source" in m && m["source"].JStr? && "output" in m && m["output"].JStr?
      then Ok(AssetConfig(m["source"].s, m["output"].s))
      else Err(FieldsMissing)
    case _ => Err(UnsupportedItem)
  }

  /**
   * The items decoded in order, stopping at the first one that does not
   * decode: the list decodes exactly when every item does, and then item `i`
   * of the result is the decoding of item `i`.
   */
  function ParseItems(items: seq<Value>): (r: Result<seq<AssetConfig>, AssetError>)
    ensures r.Ok? <==> forall i :: 0 <= i < |items| ==> ParseItem(items[i]).Ok?
    ensures r.Ok? ==> |r.value| == |items|
    ensures r.Ok? ==> forall i :: 0 <= i < |items| ==> r.value[i] == ParseItem(items[i]).value
  {
    if items == [] then Ok([])
    else match ParseItem(items[0])
      case Err(e) => Err(e)
      case Ok(a) =>
        var rest := ParseItems(items[1..]);
        if rest.Err? then Err(rest.error) else Ok([a] + rest.value)
  }

  /** The error of a list that does not decode is the error of its first bad item. */
  lemma {:induction false} FirstBadItem(items: seq<Value>, i: nat)
    requires i < |items| && ParseItem(items[i]).Err?
    requires forall j :: 0 <= j < i ==> ParseItem(items[j]).Ok?
    ensures ParseItems(items) == Err(ParseItem(items[i]).error)
  {
    if i > 0 {
      assert forall j :: 0 <= j < i - 1 ==> items[1..][j] == items[j + 1];
      FirstBadItem(items[1..], i - 1);
    }
  }

  /** `parseAssets`: nil is the empty list; anything but a list is an error. */
  function ParseAssetsSpec(assets: Value): Result<seq<AssetConfig>, AssetError>
  {
    match assets
    case JNull => Ok([])
    case JArr(items) => ParseItems(items)
    case _ => Err(NotAnArray)
  }

  /** `parseAssets`, appending one decoded item per iteration. */
  method ParseAssets(assets: Value) returns (r: Result<seq<AssetConfig>, AssetError>)
    ensures r == ParseAssetsSpec(assets)
  {
    if assets.JNull? {
      return Ok([]);
    }
    if !assets.JArr? {
      return Err(NotAnArray);
    }
    var items := assets.items;
    var result: seq<AssetConfig> := [];
    var i := 0;
    while i < |items|
      invariant 0 <= i <= |items|
      invariant |result| == i
      invariant forall j :: 0 <= j < i ==> ParseItem(items[j]).Ok? && result[j] == ParseItem(items[j]).value
    {
      var item := items[i];
      if item.JStr? {
        result := result + [AssetConfig(item.s, item.s)];
      } else if item.JObj? {
        var m := item.fields;
        if "source" in m && m["source"].JStr? && "output" in m && m["output"].JStr? {
          result := result + [AssetConfig(m["source"].s, m["output"].s)];
        } else {
          FirstBadItem(items, i);
          return Err(FieldsMissing);
        }
      } else {
        FirstBadItem(items, i);
        return Err(UnsupportedItem);
      }
      i := i + 1;
    }
    assert result == ParseItems(items).value;
    return Ok(result);
  }

  /** A list of bare strings decodes to assets whose source and output are both that string. */
  lemma StringAssets(ss: seq<string>)
    ensures ParseAssetsSpec(JArr(Strings(ss))).Ok?
    ensures var r := ParseAssetsSpec(JArr(Strings(ss))).value;
      |r| == |ss| && forall i :: 0 <= i < |ss| ==> r[i].source == ss[i] && r[i].output == ss[i]
  {
    var items := Strings(ss);
    assert forall i :: 0 <= i < |items| ==> ParseItem(items[i]) == Ok(AssetConfig(ss[i], ss[i]));
  }

  // ------------------------------------------------------------ isExcluded

  /** One exclude pattern against a path: glob on the path, equality, or glob on its base name. */
  predicate ExcludedBy(pattern: string, path: string)
  {
    Glob.Match(pattern, path) == Glob.Matched
    || pattern == path
    || Glob.Match(pattern, Paths.Base(path)) == Glob.Matched
  }

  /** `isExcluded`: some pattern excludes the path. */
  predicate Excluded(excludes: seq<string>, path: string)
  {
    exists i :: 0 <= i < |excludes| && ExcludedBy(excludes[i], path)
  }

  /** `isExcluded`, scanning the patterns in order. */
  method IsExcluded(excludes: seq<string>, path: string) returns (b: bool)
    ensures b == Excluded(excludes, path)
  {
    var base := Paths.Base(path);
    var i := 0;
    while i < |excludes|
      invariant 0 <= i <= |excludes|
      invariant forall j :: 0 <= j < i ==> !ExcludedBy(excludes[j], path)
    {
      var e := excludes[i];
      if Glob.Match(e, path) == Glob.Matched {
        assert ExcludedBy(excludes[i], path);
        return true;
      }
      if e == path {
        assert ExcludedBy(excludes[i], path);
        return true;
      }
      if Glob.Match(e, base) == Glob.Matched {
        assert ExcludedBy(excludes[i], path);
        return true;
      }
      i := i + 1;
    }
    return false;
  }

  /** A malformed pattern excludes only the path spelled exactly like it. */
  lemma BadPatternOnlyEquals(pattern: string, path: string)
    requires Glob.Tokenize(pattern).None?
    ensures ExcludedBy(pattern, path) <==> pattern == path
  {
  }

  /**
   * A pattern `*` + plain text excludes a path exactly when the path's base
   * name ends with that text: the pattern cannot match a path with a
   * directory part as a whole, since `*` stops at '/', so it is the
   * base-name test that catches "logs/app.log" for "*.log".
   */
  lemma SuffixPatternExcludes(x: string, path: string)
    requires Glob.Plain(x) && '/' !in x && x != ""
    ensures ExcludedBy("*" + x, path) <==> Paths.HasSuffix(Paths.Base(path), x)
  {
    var pattern := "*" + x;
    var b := Paths.Base(path);
    Glob.SuffixPattern(x, path);
    Glob.SuffixPattern(x, b);
    if b == "/" {
      assert |x| <= |b| ==> b[|b| - |x|..] == b;
      assert b[0] == '/';
    } else {
      assert '/' !in b;
    }
    if Glob.Match(pattern, path) == Glob.Matched {
      assert '/' !in path && Paths.HasSuffix(path, x);
      BaseOfSlashFree(path);
    }
    if pattern == path {
      assert '/' !in path by {
        assert path[1..] == x;
        assert path[0] == '*';
      }
      assert path[|path| - |x|..] == x;
      BaseOfSlashFree(path);
    }
  }

  /** A non-empty path without '/' is its own base name. */
  lemma BaseOfSlashFree(path: string)
    requires path != "" && '/' !in path
    ensures Paths.Base(path) == path
  {
    Paths.BaseOfName("", path);
    assert "" + path == path;
  }

  /** With the default pattern "*.log", exactly the paths whose base name ends in ".log" are excluded. */
  lemma LogPatternExcludes(path: string)
    ensures Excluded(["*.log"], path) <==> Paths.HasSuffix(Paths.Base(path), ".log")
  {
    assert "*.log" == "*" + ".log";
    assert Glob.Plain(".log");
    SuffixPatternExcludes(".log", path);
    assert Excluded(["*.log"], path) <==> ExcludedBy(["*.log"][0], path);
  }

  /** A pattern without special characters excludes the path equal to it or whose base name is. */
  lemma PlainPatternExcludes(x: string, path: string)
    requires Glob.Plain(x)
    ensures ExcludedBy(x, path) <==> path == x || Paths.Base(path) == x
  {
    Glob.TokenizePlain(x);
    Glob.LitsMatch(x, path);
    Glob.LitsMatch(x, Paths.Base(path));
  }

  /**
   * The default pattern ".git/" excludes only the path ".git/" itself:
   * the files below a `.git` directory, which a directory walk reaches, are
   * not excluded by it.
   */
  lemma GitPatternOnlyItself(path: string)
    ensures ExcludedBy(".git/", path) <==> path == ".git/"
  {
    assert Glob.Plain(".git/");
    PlainPatternExcludes(".git/", path);
    assert ".git/"[4] == '/';
  }

  // ------------------------------------------------------- loadBuildConfig

  datatype DecodeError = NotAnObject | BadExcludes | BadOutputDir

  /**
   * A JSON list decoded into `[]string`: every item must be a string or
   * null, and a null item is left at the zero value "".  The document null is
   * the empty list.
   */
  function StringList(v: Value): (r: Option<seq<string>>)
    ensures r.Some? <==> v.JNull? || (v.JArr? && forall i :: 0 <= i < |v.items| ==> v.items[i].JStr? || v.items[i].JNull?)
    ensures r.Some? && v.JArr? ==> |r.value| == |v.items|
    ensures r.Some? && v.JArr? ==> forall i :: 0 <= i < |v.items| && v.items[i].JStr? ==> r.value[i] == v.items[i].s
    ensures r.Some? && v.JArr? ==> forall i :: 0 <= i < |v.items| && v.items[i].JNull? ==> r.value[i] == ""
  {
    match v
    case JNull => Some([])
    case JArr(items) =>
      if forall i :: 0 <= i < |items| ==> items[i].JStr? || items[i].JNull?
      then Some(seq(|items|, i requires 0 <= i < |items| => if items[i].JStr? then items[i].s else ""))
      else None
    case _ => None
  }

  /** A list of strings encoded as JSON decodes back to itself. */
  lemma StringListRoundTrip(ss: seq<string>)
    ensures StringList(JArr(Json.Strings(ss))) == Some(ss)
  {
    var r := StringList(JArr(Json.Strings(ss)));
    assert r.Some?;
    assert r.value == ss;
  }

  /**
   * `json.Unmarshal` of a document into a fresh `BuildConfig`: fields that
   * are absent or null keep their zero values, a field of the wrong type is
   * an error.  The document `null` is not handled here (see `LoadBuildConfig`).
   */
  function DecodeBuildConfig(v: Value): Result<BuildConfig, DecodeError>
  {
    match v
    case JObj(m) =>
      var assets := if "assets" in m then m["assets"] else JNull;
      var excludes := if "excludes" in m then StringList(m["excludes"]) else Some([]);
      var dir := if "output_dir" !in m then Some("")
        else if m["output_dir"].JNull? then Some("")
        else if m["output_dir"].JStr? then Some(m["output_dir"].s)
        else None;
      if excludes.None? then Err(BadExcludes)
      else if dir.None? then Err(BadOutputDir)
      else Ok(BuildConfig(assets, excludes.value, dir.value))
    case _ => Err(NotAnObject)
  }

  /**
   * What `loadBuildConfig` leaves in effect: the file's configuration, the
   * defaults after a warning, or no configuration at all when the file holds
   * `null` (Go then dereferences a nil pointer).
   */
  datatype ConfigLoad =
    | Loaded(config: BuildConfig)
    | Fallback(config: BuildConfig)
    | NilConfig

  /**
   * `loadBuildConfig` followed by the caller's fallback to the defaults: a
   * configuration file that is missing (or a directory, which cannot be read)
   * gives the defaults, and so does one that does not parse or decode.
   */
  function LoadBuildConfig(root: Node, cwd: Path): (r: ConfigLoad)
    ensures !IsFile(StatPath(root, cwd, ConfigFile)) ==> r == Loaded(DefaultConfig)
    ensures r.Fallback? ==> r.config == DefaultConfig
  {
    match StatPath(root, cwd, ConfigFile)
    case None => Loaded(DefaultConfig)
    case Some(Dir(_)) => Loaded(DefaultConfig)
    case Some(File(_, data)) =>
      if !data.Doc? then Fallback(DefaultConfig)
      else if data.value.JNull? then NilConfig
      else match DecodeBuildConfig(data.value)
        case Err(_) => Fallback(DefaultConfig)
        case Ok(c) => Loaded(if c.outputDir == "" then c.(outputDir := "dist") else c)
  }

  /** Whatever configuration ends up in effect has a non-empty output directory. */
  lemma LoadedOutputDir(root: Node, cwd: Path)
    ensures LoadBuildConfig(root, cwd).NilConfig? || LoadBuildConfig(root, cwd).config.outputDir != ""
  {
  }

  /**
   * A configuration file holding the document `v`: a document that is not
   * JSON or does not decode gives the defaults; one that decodes is in effect
   * with its own assets, excludes and output directory, an empty or absent
   * `output_dir` becoming "dist".
   */
  lemma LoadedDocument(root: Node, cwd: Path, perm: int, data: Data)
    requires StatPath(root, cwd, ConfigFile) == Some(File(perm, data))
    ensures !data.Doc? ==> LoadBuildConfig(root, cwd) == Fallback(DefaultConfig)
    ensures data.Doc? && data.value.JNull? ==> LoadBuildConfig(root, cwd).NilConfig?
    ensures data.Doc? && !data.value.JNull? && DecodeBuildConfig(data.value).Err? ==>
      LoadBuildConfig(root, cwd) == Fallback(DefaultConfig)
    ensures data.Doc? && DecodeBuildConfig(data.value).Ok? ==>
      var c := DecodeBuildConfig(data.value).value;
      var r := LoadBuildConfig(root, cwd);
      r.Loaded? && r.config.assets == c.assets && r.config.excludes == c.excludes &&
      (c.outputDir == "" ==> r.config.outputDir == "dist") &&
      (c.outputDir != "" ==> r.config.outputDir == c.outputDir)
  {
  }

  /**
   * `{"excludes": [null], "output_dir": "out"}` decodes: the null pattern is
   * the empty string and the output directory is kept.
   */
  lemma NullExcludeDecodes()
    ensures DecodeBuildConfig(JObj(map["excludes" := JArr([JNull]), "output_dir" := JStr("out")])) ==
      Ok(BuildConfig(JNull, [""], "out"))
  {
    var m := map["excludes" := JArr([JNull]), "output_dir" := JStr("out")];
    assert "assets" !in m;
    var r := StringList(JArr([JNull]));
    assert JArr([JNull]).items[0].JNull?;
    assert r.Some? && |r.value| == 1 && r.value[0] == "";
    assert r.value == [""];
  }
}
