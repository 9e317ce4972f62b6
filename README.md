# dscli build, add and create, in Dafny

`dscli` is a command-line tool that scaffolds, extends and packages "dsserv"
modules: Go programs described by a `manifest.json` file. This project models
three of its commands and proves properties of the model.

- `dscli build` works out the target platforms from a selector (`""`, `"all"` or
  `os/arch`). It loads `.dscli.json`, falling back to the defaults when needed,
  and empties the output directory. For each target it then:
  - compiles the root package and every `cmd/<name>` entry point;
  - stamps the manifest with the target;
  - writes `<project>_<os>_<arch>.tar.gz`, holding the binaries, the manifest and
    the configured assets minus the excluded paths;
  - removes the binaries.

  A target that fails is reported and the loop goes on.
- `dscli add <name>` creates `cmd/<name>/main.go` unless that file already
  exists. It then registers `./bin/<name>` (with `.exe` for a windows manifest)
  in the manifest's `executable` list, unless the entry is already there.
- `dscli create <name>` (non-interactive) fills in default description, version
  and author. It then creates the project directory, its five sub-directories
  and six files, stopping at the first failure.

## How the model is built

- The file system is a tree value (`FileTree.Node`): a file has a permission and
  contents, and a directory lists its entries. `FileTree.Disk` keeps the tree
  well formed: ordinary entry names in strictly increasing name order, the order
  in which `os.ReadDir` lists them and `filepath.Walk` visits them. Every write
  operation keeps this.
- Paths are strings resolved lexically against the working directory
  (`Paths.Locate`): empty elements and "." are dropped, ".." drops the element
  before it whether or not that element exists or is a directory, and a
  trailing '/' is ignored. The OS resolves a path element by element instead;
  where the two differ is listed under "## Left out".
- `FileTree.Disk` is the mutable file system the commands run against.
  `Archive.TarWriter` is the archive being written: an in-order list of headers.
- Each command is a `method` on these objects. Its `ensures` ties the new state
  and the result to a pure step function. The lemmas state what the step
  functions guarantee.
- `filepath.Match` follows Go's scan chunk by chunk (`Glob.Scan`): once a
  chunk after `*` fits, the first place it fits is kept. A declarative glob
  relation (`Glob.MatchTokens`) is the reference it is proved sound against.
- JSON documents are `Json.Value`, and a manifest is a `map<string, Value>`. A
  file whose contents are not a JSON document is unparsable.
- Parameters stand in for the outside world:
  - the Go compiler is a predicate `(source, target) -> bool`;
  - the clock is a function from target index to time stamp;
  - the host platform is a value.
- Go panics become explicit outcomes (`Crashed`). They happen when a manifest or
  `.dscli.json` holds `null`, or when the manifest's `name` is not a string.

Where the project's own description and the code differ, the model follows the code:

- `updateManifestForTarget` only sets `build_date`, `os` and `arch`. It does not
  rewrite the `executable` list, even for windows (`Manifest.StampRoundTrip`,
  `Create.InitialManifestFacts`).
- `createPackage` returns an error when the manifest cannot be added, but by then
  the archive file exists and already holds the bin header and the binaries
  (`Archive.ManifestFailureStopsAssets`).
- The exclude pattern `.git/` excludes only the path spelled `.git/`, never a file
  inside a `.git` directory (`Assets.GitPatternOnlyItself`).
- A project is recognised by any `manifest.json` entry, even a directory of that
  name (`Build.ProjectOutline`, `Add.AddGates`).

## Model

| member | source | states |
|---|---|---|
| Targets.GetTargetsToBuild | cmd/build.go:420-446 | the linear search over the platform table returns exactly the selector's resolution |
| Targets.ResolveDefaults | cmd/build.go:421-429 | an empty selector gives the host platform; "all" gives the whole eight-entry table |
| Targets.ResolveSpecific | cmd/build.go:431-445 | a selector other than "" or "all" gives `[t]` iff it spells `t.os/t.arch` of a table entry; it is an invalid-format error iff it has not exactly one '/'; any result is one table entry |
| Targets.ResolvePair | cmd/build.go:432-445 | `os/arch` without other slashes resolves to that pair when the table has it, otherwise to the "unsupported" error naming it |
| Targets.MatrixSlashFree | cmd/build.go:37-46 | no os or arch in the table contains '/', so every entry is selectable |
| Assets.ParseItems | cmd/build.go:246-271 | a list decodes iff every item does, one asset per item, in order |
| Assets.FirstBadItem | cmd/build.go:248-269 | a list that fails reports the error of its first bad item |
| Assets.ParseAssets | cmd/build.go:240-275 | the appending loop computes the declarative decoding: nil is empty, a non-list is an error |
| Assets.StringAssets | cmd/build.go:249-254 | a list of strings decodes to assets whose source and output are both that string |
| Assets.IsExcluded | cmd/build.go:479-494 | the pattern scan answers true exactly when some pattern matches the path, equals it, or matches its base name |
| Assets.BadPatternOnlyEquals | cmd/build.go:481-491 | a malformed pattern excludes only the path equal to it |
| Assets.SuffixPatternExcludes | cmd/build.go:479-494 | `*x` (x plain, no '/') excludes exactly the paths whose base name ends in x |
| Assets.LogPatternExcludes | cmd/build.go:479-494 | the default `*.log` excludes exactly the paths whose base name ends in `.log` |
| Assets.PlainPatternExcludes | cmd/build.go:479-494 | a pattern without special characters excludes the path equal to it or whose base name equals it |
| Assets.GitPatternOnlyItself | cmd/build.go:479-494 | the pattern `.git/` excludes the path `.git/` and nothing else |
| Assets.LoadBuildConfig | cmd/build.go:453-477 | a missing `.dscli.json`, or one that cannot be read as a file, gives the defaults; a configuration that could not be decoded is replaced by the defaults |
| Assets.LoadedDocument | cmd/build.go:466-476 | a file that is not JSON, or whose document does not decode, gives the defaults; `null` gives the nil configuration; a decoded document is in effect with its own assets and excludes, and its output directory, an empty one becoming `dist` |
| Assets.StringList | cmd/build.go:30-34 | an `excludes` value decodes iff it is `null` or a list of strings and nulls; each string is kept and each `null` becomes "" |
| Assets.StringListRoundTrip | cmd/build.go:30-34 | a list of strings decodes back to itself |
| Assets.NullExcludeDecodes | cmd/build.go:30-34 | `{"excludes": [null], "output_dir": "out"}` decodes to excludes `[""]` and output directory `out` |
| Assets.LoadedOutputDir | cmd/build.go:471-474 | unless the file holds `null`, the configuration in effect has a non-empty output directory; a missing or non-file `.dscli.json` gives the defaults |
| Glob.SuffixPattern | cmd/build.go:481 | `filepath.Match("*"+x, s)` matches iff s has no '/' and ends in x |
| Glob.LitsMatch | cmd/build.go:481 | a pattern of literal characters matches exactly the string spelled like it |
| Glob.SlashFreeMatchesNoSlash | cmd/build.go:489 | a pattern without '/' and without classes only matches strings without '/', which is why the base name is tried as well |
| Glob.ScanSound | cmd/build.go:481 | every name Go's chunk-by-chunk scan matches can be split so that each `*` takes a run without '/' and every other token one character |
| Glob.ClassAcrossSlash | cmd/build.go:481 | `*[^x]*b` does not match `a/b`: the scan keeps the first place `[^x]` fits, "a", although a split exists in which the class takes the '/' |
| Glob.LogPatternExamples | cmd/build.go:481 | `*.log` matches `x.log` but not `a/b/x.log` or `x.logx`; `[` is a bad pattern |
| Paths.Base | cmd/build.go:489 | `filepath.Base` is never empty and is "/" or free of '/' |
| Paths.BaseOfName | cmd/build.go:489 | the base of `dir/name` is `name` |
| Paths.JoinSimple | cmd/build.go:516 | `filepath.Join` of two plain names is them with a '/' between |
| Manifest.Stamp | cmd/build.go:225-228 | stamping sets `build_date`, `os` and `arch` to the build's values and keeps every other key and value |
| Manifest.UpdateManifestForTarget | cmd/build.go:219-237 | the manifest file is rewritten with the stamped object; a read or write error leaves the tree unchanged |
| Manifest.UpdateKeepsFiles | cmd/build.go:219-237 | stamping the manifest removes no file and keeps the root a directory |
| Manifest.StampRoundTrip | cmd/build.go:219-237 | after a successful update the manifest reads back as the stamped original, with its executable list untouched |
| Manifest.RegisterAppends | cmd/add.go:114-137 | registering appends exactly the new entry to the executable list and keeps every other key |
| Manifest.RegisterIdempotent | cmd/add.go:126-133 | registration is skipped iff the entry is already listed; after one registration the entry appears once and a second one changes nothing |
| Manifest.RegisterIntoMissingList | cmd/add.go:115-118 | a missing or non-list `executable` is replaced by the one-entry list |
| Manifest.RegisterExecutable | cmd/add.go:114-137 | the duplicate-scanning loop computes the registration |
| Manifest.UpdateManifestExecutable | cmd/add.go:102-151 | an unreadable manifest or a failed write is an error and leaves the tree as it was; otherwise the registered manifest is written |
| Manifest.RegisterOnDiskIdempotent | cmd/add.go:102-151 | after a successful registration the manifest lists the entry, and registering again leaves the tree unchanged |
| Discovery.EntryPointsMembers | cmd/build.go:509-519 | a name is discovered iff it is a directory entry of `cmd` holding a `main.go` |
| Discovery.EntryPointsAppend | cmd/build.go:508-520 | discovery distributes over concatenation of directory listings, so names come out in listing order |
| Discovery.DiscoverCmdExecutables | cmd/build.go:497-523 | the loop computes discovery: no `cmd` gives none, a `cmd` file is an error; the names come out in strictly increasing order |
| Discovery.DiscoverIncreasing | cmd/build.go:503-518 | in a well-formed tree the discovered names are ordinary names in strictly increasing order, as `os.ReadDir` lists them |
| Discovery.DiscoverSame | cmd/build.go:497-523 | discovery reads only `cmd` and what lies below it: trees that agree there discover the same entry points |
| FileTree.WalkIncreasing | cmd/build.go:380-407 | the walk of a well-formed tree visits its files in strictly increasing lexical order |
| Archive.TarWriter.WriteHeader | cmd/build.go:297 | a header is appended to the archive |
| Archive.ModeRule | cmd/build.go:367-370 | a path ending in `.exe`, or without a '.', gets mode 0755; any other path (`manifest.json` included) keeps the file's permission |
| Archive.FileToTar | cmd/build.go:349-378 | succeeds iff the path is a file, which gives one entry named by the archive path; a missing path adds nothing, and a directory adds its header and then fails |
| Archive.TarWriter.AddFileToTar | cmd/build.go:349-378 | the writer gains exactly the file's entries and the result says whether it was a file |
| Archive.TarPathOf | cmd/build.go:401-403 | archive paths never contain a backslash |
| Archive.WalkEntries | cmd/build.go:380-407 | the walk succeeds iff every file below the directory is excluded or readable; it then adds one entry per non-excluded file at `output/rel`, in walk order |
| Archive.TarWriter.AddWalkStep | cmd/build.go:381-406 | one visited file adds its entry unless excluded |
| Archive.TarWriter.AddDirToTar | cmd/build.go:380-407 | the walk adds the walk's entries and stops at the first failure |
| Archive.BinariesAsFiles | cmd/build.go:302-309 | when all binaries exist, each one is archived once, under `bin/<name>`, in build order |
| Archive.TarWriter.AddBinaries | cmd/build.go:302-309 | the binary loop appends exactly the binaries' entries, skipping failures |
| Archive.ExcludedAssetsAddNothing | cmd/build.go:321-326 | assets whose source is excluded add nothing |
| Archive.TarWriter.AddAsset | cmd/build.go:321-343 | one asset adds its file or directory entries unless excluded or missing |
| Archive.TarWriter.AddAssets | cmd/build.go:316-344 | the asset loop appends exactly the assets' entries, in order |
| Archive.PackageLayout | cmd/build.go:290-344 | the archive starts with the `bin/` header, then every binary in order, then the manifest, then exactly the entries of the assets; an asset list that does not decode leaves nothing after the manifest |
| Archive.FileAssetEntry | cmd/build.go:321-341 | a file asset that is not excluded adds exactly one entry, at its output path, with its contents |
| Archive.MissingAssetAddsNothing | cmd/build.go:327-331 | an asset whose source does not exist adds nothing |
| Archive.AssetsAppend | cmd/build.go:320-343 | the assets' entries distribute over concatenation of the asset list, so they come out in list order |
| Archive.AssetsAsFiles | cmd/build.go:320-343 | when every asset is a file and none is excluded, each adds one entry at its output path, in order |
| Archive.ManifestFailureStopsAssets | cmd/build.go:311-314 | when the manifest cannot be added, packing fails after the bin header and the binaries, and no asset is added |
| Archive.TarWriter.FillPackage | cmd/build.go:290-346 | the writer gains exactly the package's entries; an asset list that does not decode leaves the assets out without failing |
| Archive.CreatePackageKeepsFiles | cmd/build.go:277-347 | writing the archive removes no file and keeps the root a directory |
| Archive.TarWriter.CreatePackage | cmd/build.go:277-347 | the archive file is written with the package's entries, including after a manifest failure; an uncreatable file is an error that changes nothing |
| Build.BinaryMode | cmd/build.go:147-150 | binaries live at `bin/<name>`; windows binaries and dot-free names are archived 0755 |
| Build.PackageNameInjective | cmd/build.go:204-205 | two targets get the same package name iff they are the same target |
| Build.MatrixPackagesDistinct | cmd/build.go:204-205 | "all" writes a distinct package for each table entry |
| Build.Compile | cmd/build.go:179-190 | one `go build` is the compiler step |
| Build.CompileStepFiles | cmd/build.go:179-190 | a successful build leaves the binary at `bin/<binary>`; existing files stay files; a failed build changes nothing |
| Build.CompileCommandsOrder | cmd/build.go:171-191 | every built binary belongs to an entry point the compiler accepts, in discovery order |
| Build.CompileStepComplete | cmd/build.go:179-190 | when `bin` can be made and holds no directory in a binary's place, a build succeeds exactly when the compiler accepts it, and nothing outside `bin` changes |
| Build.Accepted | cmd/build.go:184-189 | the entry points the compiler accepts, in order: an entry point is among them iff it is listed and accepted |
| Build.CompileCommandsComplete | cmd/build.go:171-191 | under the same conditions the built list is exactly the binaries of the accepted entry points, in order |
| Build.MainStepKeepsDiscovery | cmd/build.go:152-167 | building the root binary changes nothing that discovery reads |
| Build.CompileCommandsKeep | cmd/build.go:171-191 | compiling keeps existing files as files, and when nothing builds they are unchanged |
| Build.CompileCommandsFiles | cmd/build.go:171-191 | every binary listed as built exists as a file |
| Build.CompileEntryPoints | cmd/build.go:167-192 | the loop over entry points computes the compile step for each |
| Build.CompileBinaries | cmd/build.go:145-192 | the root package, when `main.go` exists, then the discovered entry points |
| Build.CompileAllOrder | cmd/build.go:145-192 | a built root package comes first under the project's binary name; the rest are built entry points in order |
| Build.CompileAllComplete | cmd/build.go:145-192 | when `bin` can be made and holds no directory in a binary's place, the built list is the root binary when `main.go` exists and is accepted, then the binaries of the discovered entry points the compiler accepts, in name order |
| Build.CompileAllFiles | cmd/build.go:145-192 | every built binary exists and no existing file is lost |
| Build.RemoveBinaries | cmd/build.go:211-214 | the cleanup loop computes the removals |
| Build.CleanupRemoves | cmd/build.go:211-214 | after cleanup no built binary remains |
| Build.CleanupKeeps | cmd/build.go:211-214 | cleanup turns no file or missing path into a directory |
| Build.BuildForTarget | cmd/build.go:135-217 | one target: compile, then fail if nothing was built, then stamp, pack and clean up, stopping at the first error |
| Build.AfterCompileKeepsFiles | cmd/build.go:198-209 | stamping and packing remove no file |
| Build.TargetBinaries | cmd/build.go:194-216 | success reports the built binaries and removes them all; failure leaves them all; nothing built is `NoArtifacts` and changes no file |
| Build.RunTargets | cmd/build.go:116-123 | the target loop gives one report per target |
| Build.RunTargetsReport | cmd/build.go:116-123 | report i names target i and holds the result of building it on the tree the earlier targets left |
| Build.ReportOfEachTarget | cmd/build.go:117-123 | report i is for target i and is the outcome of building it on the tree left by the earlier targets, so a failure does not stop the loop |
| Build.BuildLoop | cmd/build.go:116-123 | the loop computes the per-target reports |
| Build.DistDir | cmd/build.go:104-108 | the output directory is never empty; an empty configured one becomes `dist`, any other is kept |
| Build.BuildProject | cmd/build.go:72-133 | `buildProject` as one run, from the project check to the target loop |
| Build.LoadedOutline | cmd/build.go:89-123 | a finished build reports each resolved target in order; every failure before the output directory is emptied, and every crash, leaves the tree unchanged; a failed emptying changes the tree only for an output directory ending in "." or ".." |
| Build.ProjectOutline | cmd/build.go:72-133 | no manifest means "not a project" and nothing changes; otherwise as above |
| Add.CreateExecutableInCmd | cmd/add.go:59-99 | creates `cmd` and `cmd/<name>`, then writes the template only when `main.go` is absent |
| Add.CreateInCmdKeepsFiles | cmd/add.go:71-76 | an existing file is never overwritten, and on success `cmd/<name>/main.go` exists |
| Add.CreateInCmdKeepsManifest | cmd/add.go:59-99 | creating the entry point leaves the manifest reading as before |
| Add.Register | cmd/add.go:41-45 | the registration step, with a `null` manifest as a crash |
| Add.RegisterStepOutcome | cmd/add.go:41-45 | registration ends in success, a crash or a manifest error, nothing else |
| Add.RegisterStepAdds | cmd/add.go:41-45 | a successful registration leaves a readable manifest listing the entry, and repeating it changes nothing |
| Add.AddExecutable | cmd/add.go:20-51 | the whole `add` run |
| Add.AddGates | cmd/add.go:21-34 | no manifest is "not a project", and an empty name is "name required"; both leave the tree unchanged, and those errors arise only then |
| Add.AddRunAdded | cmd/add.go:36-45 | `add` succeeds only by registering after the entry point was created |
| Add.AddRegisters | cmd/add.go:20-51 | after a successful `add`, the manifest lists the entry computed from the original manifest, and adding again changes nothing |
| Create.NonInteractiveConfig | cmd/create.go:58-78 | an empty name is rejected and only that; otherwise the name is kept, given fields are kept, and empty ones get "A dsserv module", "1.0.0" and "DataShell Team" |
| Create.InitialManifestFacts | cmd/create.go:303-323 | the new manifest names the project for linux/amd64 with version 1 and lists exactly `./bin/<name>`, so adding the project's own name is a no-op and stamping keeps that list |
| Create.InitialDscliConfigDecodes | cmd/create.go:421-441 | the written `.dscli.json` loads as assets `config/` and `templates/`, excludes `*.log`, `*.tmp` and `.git/`, and output directory `dist` |
| Create.MakeSubdirs | cmd/create.go:159-171 | the directory loop stops at the first failure |
| Create.WriteProjectFile | cmd/create.go:204-441 | one of `createGoMod` ... `createDscliConfig`: a failed write names its path and changes nothing; a successful one lets the run go on with the files after it |
| Create.WriteProjectFiles | cmd/create.go:173-199 | the six files are written in order, stopping at the first failure |
| Create.CreateProject | cmd/create.go:151-202 | `createProject`: project directory, sub-directories, files |
| Create.CreateCommand | cmd/create.go:49-97 | the non-interactive `create` run |
| Create.MakeDirsStops | cmd/create.go:167-171 | a failure names the first directory that could not be made, and everything before it was made |
| Create.WriteFilesStops | cmd/create.go:173-199 | a failure names the first file that could not be written, and every file before it was written |
| Create.MakeDirsKeepsSibling | cmd/create.go:159-171 | making the sub-directories touches no other entry of the project directory |
| Create.WriteFilesKeepsSibling | cmd/create.go:173-199 | writing the files touches no other entry of the project directory |
| Create.MakeDirsPlaces | cmd/create.go:167-171 | after success each listed sub-directory is a directory |
| Create.WriteFilesPlaces | cmd/create.go:173-199 | after success each file holds its contents, unless a later file of the same name overwrote it |
| Create.EntryNames | cmd/create.go:159-199 | the sub-directory names and file names are plain, distinct and disjoint |
| Create.ProjectFileNames | cmd/create.go:173-199 | the files written are go.mod, main.go, manifest.json, README.md, .gitignore and .dscli.json, in that order |
| Create.CreateProjectStops | cmd/create.go:151-202 | a failure of the project directory changes nothing; any other failure names the first failing step, and the earlier steps all took effect |
| Create.CreatedDir | cmd/create.go:159-171 | after success each sub-directory exists in the project |
| Create.CreatedFile | cmd/create.go:173-199 | after success each file holds its contents in the project |
| Create.CreatedManifest | cmd/create.go:303-323 | after success the project's manifest reads back as the initial manifest |
| Create.CreatedBuildConfig | cmd/create.go:421-441 | after success the project's build configuration loads as written |
| Create.CreatedThenAddOwnName | cmd/create.go:314 | after success, registering the project's own name leaves the tree unchanged |
| Create.CreateGates | cmd/create.go:58-69 | the run is rejected iff the name is empty; a rejection or a failed project directory changes nothing |
| Create.CreatedProject | cmd/create.go:49-97 | a created project has its sub-directories and its manifest, loads its build configuration, and treats adding its own name as a no-op |
| FileTree.Disk.MkdirAll | cmd/build.go:112 | `os.MkdirAll` succeeds or fails as the tree model says, changes the tree only on success, and keeps it well formed |
| FileTree.Disk.WriteFile | cmd/build.go:236 | `os.WriteFile` succeeds or fails as the tree model says, changes the tree only on success, and keeps it well formed |
| FileTree.Disk.Remove | cmd/build.go:213 | `os.Remove` succeeds or fails as the tree model says, changes the tree only on success, and keeps it well formed |
| FileTree.Disk.RemoveAll | cmd/build.go:109 | `os.RemoveAll` has the effect and result of the tree model, and keeps the tree well formed |
| FileTree.RemoveAllPathEffect | cmd/build.go:109 | as `os.RemoveAll`: "." and paths ending in "/." are refused with nothing changed; success leaves nothing at the path, unless its last element is "." or "..", which names nothing to remove; a directory named through a last ".." (or "./") is emptied and the call fails; every other failure changes nothing |

## Left out

- The interactive prompt of `create` (`promptForProjectInfo`) is left out, because it reads from a terminal. Only the non-interactive path is modelled.
- The texts of the templates are not modelled. go.mod, main.go, README.md, .gitignore and the `add` template are opaque blobs, named by their inputs.
- `create` writes main.go and README.md in two steps: `os.Create`, then a template `Execute`. The model treats each as one write, so a partly written file after an `Execute` error is not modelled.
- The compiler is an oracle: each build either succeeds or fails. The `-ldflags` build date, the cross-compilation environment and the compiler's output are left out, and a failed build leaves no partial binary.
- JSON text, tar and gzip bytes, file sizes and modification times are left out. The manifest and configuration are JSON values, and the archive is its list of headers in order.
- Printed messages and the final build summary are left out. The summary is a `filepath.Glob` listing of `*.tar.gz` files that is only printed.
- The umask, symbolic links, concurrency and closing the archive are left out. Permission bits are stored as given.
- Archive directory headers are assumed to carry mode 0755.
- Build.CompileAllOrder: the entry-point binaries are stated to keep the order of some list of entry points. That they are exactly the binaries of the discovered entry points the compiler accepts is stated by `Build.CompileAllComplete`.
- Build.CompileAllComplete, Build.CompileCommandsComplete, Build.CompileStepComplete: these are stated only when `bin` can be created and holds no directory where a binary would go, and (for the whole phase) for a tree as `FileTree.Disk` keeps it and a project name without '/' that is not "." or "..". Otherwise a build the compiler accepts can still fail to write its binary in the model; the line on Build.Compile says where Go differs.
- Build.LoadedOutline, Build.ProjectOutline: a failed emptying of the output directory is not promised to leave the tree unchanged. For an output directory whose last element is "." or "..", `os.RemoveAll` deletes what lies inside it before it fails.
- Build.Compile, Build.CompileStep: the model makes `bin` and then writes the file `bin/<binary>`. `go build -o bin/<binary>` differs in two cases. When `bin/<binary>` is an existing directory, Go writes the binary inside it and succeeds; the model's write fails, so the binary is not listed as built. When the project name contains '/' (say `a/b`), Go also creates `bin/a`; the model makes only `bin`, and the write fails.
- FileTree.Disk.MkdirAll, Archive.TarWriter.AddAsset, Build.BuildProject, Create.CreateProject: paths are resolved lexically, where Go hands them to the OS. `os.MkdirAll("x/../out")` creates `x` as well as `out` when `x` is missing, and fails when `x` is a file; the model creates only `out` in both cases. This affects an `output_dir` such as `x/../out` (`buildProject`) and a project name such as `x/../p` (`createProject`). An asset source such as `missing/../config`, or `data.txt/` where `data.txt` is a file, is archived by the model, where Go's `os.Stat` fails and the asset is skipped.
- Json.Value: numbers are integers (`JNum`). `encoding/json` decodes every number in the manifest to float64, and each stamp and each `add` rewrites the whole manifest. So Go rounds integers above 2^53 on every rewrite and keeps fractional numbers; the model keeps integers exact and cannot hold a fraction.
- RemoveAll (FileTree.RemoveAllPath, FileTree.Disk.RemoveAll): paths are resolved lexically, so `x/..` names the working directory even where `x` does not exist, and symbolic links are not followed. The root "/" is refused rather than emptied.
- Assets.DecodeBuildConfig: keys of `.dscli.json` are matched exactly. `json.Unmarshal` also accepts them in any letter case (`"Output_Dir"`); that is not modelled, because an object is a map here and the model cannot tell which of two spellings came last.
- Create.CreatedProject, Create.CreatedFile, Create.CreatedDir, Create.CreatedManifest, Create.CreatedBuildConfig, Create.CreatedThenAddOwnName, Create.WriteFilesKeepsSibling, Create.MakeDirsKeepsSibling, Create.WriteFilesPlaces, Create.MakeDirsPlaces: these are stated only for a plain project name, with no '/' and not "." or "..". `create` itself accepts any non-empty name.
- Manifest.UpdateManifestForTarget: a manifest holding `null` is reported as a read error here, where Go would panic. `buildProject` already crashes on it before the first target, so a build never reaches this case.
- Running `add` twice is covered at manifest level (`Manifest.RegisterOnDiskIdempotent`, `Add.RegisterStepAdds`), not as one lemma about two whole `add` runs.
