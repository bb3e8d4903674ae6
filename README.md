# hover packaging, modelled in Dafny

A model of `cmd/packaging.go` from hover, the command-line tool that builds
Flutter desktop applications. The file holds:

- `hover init-packaging linux-snap` and `hover init-packaging linux-deb`,
  which write the configuration files of a package format into
  `go/packaging/<format>`;
- the two build functions, `buildLinuxSnap` and `buildLinuxDeb`. Each stages
  the application in a fresh temporary directory, runs `snapcraft` or
  `dpkg-deb` there, moves the package it leaves to the output directory and
  removes the staging directory;
- the helpers around them: the per-format directory, the two guards on it,
  the OS check and the name stripping.

The model has seven modules:

- `Text` (text.dfy): `strings.Split`, `strings.Join`, and the text a list of
  lines becomes when each line is written followed by `"\n"`.
- `Names` (names.dfy): `removeDashesAndUnderscores` and the OS part of a
  format name.
- `Templates` (templates.dfy): the exact lines of snapcraft.yaml, the two
  desktop entries, the deb control file and the launcher script, and the
  artifact names.
- `FileSystem` (filesystem.dfy): an abstract directory tree. Each call the
  code makes is a function that either fails or gives the next tree:
  `os.Stat`, `os.MkdirAll`, the `Mkdir` inside `ioutil.TempDir`,
  `os.Create`, `WriteString`, `copy.Copy`, the packager process,
  `os.Rename` and `os.RemoveAll`. Each of these calls keeps the tree
  well-formed.
- `Runs` (runs.dfy): running a list of calls up to the first failure, and
  the shape both builds share (a staged build), with its net effect.
- `Packaging` (packaging.dfy): the commands, as methods of a `Workspace`
  class. The class holds the tree and a ghost trace of every call made. Each
  command is proved to make exactly the calls of its plan, in order, up to
  the first failure. Where the source prints a message and calls
  `os.Exit(1)`, the command returns an `Err` status.
- `Effects` (effects.dfy): what each plan does to the tree as a whole.

## Model

| member | source | states |
|---|---|---|
| Names.RemoveDashesAndUnderscores | cmd/packaging.go:89-91 | the result has no '-' and no '_', and is no longer than the name |
| Names.StripIsKeptChars | cmd/packaging.go:89-91 | the result is the name's characters other than '-' and '_', in their original order |
| Names.StripIdempotent | cmd/packaging.go:89-91 | stripping twice gives the same as stripping once |
| Names.StripFixedPoint | cmd/packaging.go:89-91 | a name is left unchanged exactly when it has no '-' and no '_' |
| Names.StripConcat | cmd/packaging.go:89-91 | stripping distributes over concatenation |
| Names.RemoveCharConcat | cmd/packaging.go:90 | removing one character from a concatenation removes it from each part |
| Names.RemoveCharAbsent | cmd/packaging.go:90 | removing a character the text does not contain changes nothing |
| Names.RemoveChar | cmd/packaging.go:90 | the result lacks the removed character and holds only characters of the input |
| Names.OsOf | cmd/packaging.go:83 | the OS part of a format holds no '-' |
| Names.OsOfIsPrefixBeforeDash | cmd/packaging.go:83-84 | the first field of the format split at '-' is a '-'-free prefix of it, ending at the end or at a '-' |
| Names.OsOfIff | cmd/packaging.go:83 | an OS name equals that first field exactly when it is a '-'-free prefix of the format followed by the end or by '-' |
| Names.LinuxFormats | cmd/packaging.go:108-109 | both linux-snap and linux-deb require the OS "linux" |
| Text.SplitOn | cmd/packaging.go:83 | strings.Split gives at least one field, and no field contains the separator |
| Text.JoinWith | cmd/packaging.go:328 | strings.Join starts with the first part, followed by the separator when more parts follow |
| Text.Render | cmd/packaging.go:164-169 | the written text is empty exactly when there are no lines; otherwise it starts with the first line and its newline and ends with a newline |
| Text.SplitJoin | cmd/packaging.go:328 | splitting a join of separator-free parts gives back the parts |
| Text.JoinSplit | cmd/packaging.go:328 | joining the fields of a split gives back the text |
| Text.SplitOnPrefix | cmd/packaging.go:83 | a separator-free prefix joins the first field of the rest |
| Text.RenderSnoc | cmd/packaging.go:164-169 | writing one more line appends that line and a newline to the file text |
| Text.RenderSplit | cmd/packaging.go:164-169 | the file text of newline-free lines splits at '\n' into those lines and a final empty field |
| Templates.SnapcraftFileContent | cmd/packaging.go:135-162 | the loop that appends one item per dependency builds exactly the snapcraft.yaml line list |
| Templates.SnapcraftHeader | cmd/packaging.go:135-158 | the fixed part of snapcraft.yaml has 23 lines: the stripped name first, the quoted version third, the app named after the stripped name and running the project name, ending with the stage-packages key |
| Templates.DependencyItems | cmd/packaging.go:160-162 | one "      - <dependency>" line per dependency, in order |
| Templates.SnapcraftManifest | cmd/packaging.go:135-162 | snapcraft.yaml is the 23 fixed lines followed by one item per dependency, in order |
| Templates.SnapDesktopEntry | cmd/packaging.go:186-195 | the snap desktop entry has eight lines: an application that runs /<name> under the name <name> |
| Templates.SnapDesktopReference | cmd/packaging.go:147 | the manifest's desktop line names local/<name>.desktop, the file init creates below snap |
| Templates.DebControlShape | cmd/packaging.go:328 | the control file's Depends field splits at ',' back into the dependency list |
| Templates.DebControl | cmd/packaging.go:321-329 | the control file has seven lines: package, architecture, "@"-prefixed author and version in their places |
| Templates.DebWrapper | cmd/packaging.go:354-357 | the launcher is a two-line sh script that runs <name> inside usr/lib/<name>, where the deb build copies the application |
| Templates.DebDesktopEntry | cmd/packaging.go:385-394 | the deb desktop entry has eight lines: an application that runs /usr/bin/<name>, with its icon under the copied usr/lib/<name>/assets |
| Templates.CorrectedDebDesktopEntry | cmd/packaging.go:385-394 | the deb desktop entry with Exec pointing at the launcher path usr/bin/<stripped name>, every other line as written |
| Templates.CorrectedDebDesktopEntryAgrees | cmd/packaging.go:391 | the corrected entry equals the written one exactly when the project name has no '-' and no '_' |
| Templates.DebDesktopExecNamesWrapper | cmd/packaging.go:391 | the desktop entry's Exec path equals the launcher's path exactly when the name has no '-' and no '_' |
| Templates.SnapBuiltName | cmd/packaging.go:250 | the snap the build expects splits at '_' into the stripped name, the version and <arch>.snap |
| Templates.PackageFileName | cmd/packaging.go:436 | a package file name (the stable snap name of line 249, the deb name of line 436) splits at '_' into the stripped name and <arch><extension> |
| Templates.SnapBuiltNameAcrossVersions | cmd/packaging.go:135-138 | the snap name expected at build time equals the one for the pubspec seen at init exactly when snapcraft.yaml's name and version lines would be the same for both |
| FileSystem.StatNotExistIff | cmd/packaging.go:64 | os.Stat with os.IsNotExist reports nothing there exactly when nothing is at the path and os.MkdirAll could create it |
| FileSystem.StatBlockedByFile | cmd/packaging.go:76 | a file on the way down makes os.Stat fail with "not a directory", which os.IsNotExist rejects: the guards treat the path as taken although nothing is there |
| FileSystem.DoMkdirAll | cmd/packaging.go:68 | os.MkdirAll fails exactly when a file stands on the way down; otherwise p is a directory and no file changes |
| FileSystem.StatNotExistMkdirAll | cmd/packaging.go:64-68 | where os.Stat reports not-exist, os.MkdirAll succeeds and adds exactly the directories on the way down |
| FileSystem.DoMkdir | cmd/packaging.go:99 | creating the temporary directory succeeds exactly when nothing is there and its parent is a directory, and adds only it |
| FileSystem.DoCreate | cmd/packaging.go:130 | os.Create succeeds exactly when the path is not a directory and its parent is one, and leaves an empty file there |
| FileSystem.DoAppend | cmd/packaging.go:165 | WriteString on an open file appends the text to the file's contents |
| FileSystem.DoCopy | cmd/packaging.go:223-237 | copy.Copy fails when the source is missing; on success no directory is lost and the destination exists |
| FileSystem.DoRunPackager | cmd/packaging.go:239-248 | the packager succeeds exactly when it produced a package and can write it into its directory, and leaves it at the artifact path |
| FileSystem.DoRename | cmd/packaging.go:250-254 | os.Rename of a file moves its contents to the target and removes the source name |
| FileSystem.DoRemoveAll | cmd/packaging.go:255-259 | os.RemoveAll deletes everything at or below the path and nothing else |
| FileSystem.ApplyKeepsValid | cmd/packaging.go:212-260 | every call keeps the tree well-formed |
| Runs.Run | cmd/packaging.go:107-210 | a run that stops did so at the first call that failed, with that call's error |
| Runs.RunConcat | cmd/packaging.go:107-210 | running two call lists one after the other is running their concatenation |
| Runs.RunAfter | cmd/packaging.go:107-210 | after calls that all succeeded, a further segment ends where it would alone, with its calls counted after theirs |
| Runs.RunStoppedPrefix | cmd/packaging.go:107-210 | a run that stopped at a call had completed every call before it, and the failing call left the tree as those calls did |
| Runs.Writes | cmd/packaging.go:164-169 | the WriteString loop (also at lines 330-335 and the other init files): one Append per line, in order, each line followed by "\n" |
| Runs.StagedBuild | cmd/packaging.go:220-259 | a staged build (also lines 418-458): Mkdir of the staging directory first, then the copies in order, the packager run there, the move of its artifact to the output path, and RemoveAll of the staging directory last |
| Runs.WriteFileOps | cmd/packaging.go:130-169 | os.Create on the path first, then one WriteString of each line and its newline, in order |
| Runs.RunKeepsValid | cmd/packaging.go:107-210 | running any list of calls keeps the tree well-formed |
| Runs.WriteNewFile | cmd/packaging.go:130-169 | creating a file and writing its lines leaves exactly the lines, each followed by "\n", at that path |
| Runs.CopiesStayInside | cmd/packaging.go:223-237 | copies into the staging directory change nothing outside it |
| Runs.StagedBuildNetEffect | cmd/packaging.go:220-259 | a staged build that completes leaves only the package at its output path |
| Runs.StagedBuildFailure | cmd/packaging.go:220-259 | a failed staged build either changed nothing, or stopped after creating the staging directory and left it behind |
| Packaging.AssertCorrectOS | cmd/packaging.go:82-87 | passes exactly when the host OS is the format's first '-'-field, and otherwise reports that OS |
| Packaging.AssertLinux | cmd/packaging.go:82-87 | for the two linux formats, passes exactly when the host OS is "linux" |
| Packaging.PackagingFormatPath | cmd/packaging.go:54-61 | a format's directory is packaging/<format> directly below the build directory |
| Packaging.TempPath | cmd/packaging.go:98-105 | the staging directory is one entry inside the host's temporary directory, named starting with hover-build-<name>-<format> |
| Packaging.InitSnapCalls | cmd/packaging.go:107-210 | snap init makes the format directory first and then creates only directories and files inside it |
| Packaging.InitSnapPlan | cmd/packaging.go:107-210 | the same for the snapcraft.yaml and desktop entry of the project |
| Packaging.InitDebCalls | cmd/packaging.go:262-408 | deb init makes the format directory first and then creates only directories and files inside it |
| Packaging.InitDebPlan | cmd/packaging.go:262-408 | the same for the control file, launcher and desktop entry of the project |
| Packaging.SnapCopies | cmd/packaging.go:223-237 | the three snap staging copies all land inside the temporary directory |
| Packaging.DebCopies | cmd/packaging.go:421-435 | the two deb staging copies both land inside the temporary directory |
| Packaging.SnapBuildPlan | cmd/packaging.go:220-259 | the temporary directory is made first and removed last; between them, three copies into it, snapcraft run in it, and the move of the versioned snap to the stable output name |
| Packaging.DebBuildPlan | cmd/packaging.go:418-458 | the temporary directory is made first and removed last; between them, two copies into it, dpkg-deb run in it with the package name, and the move of that file to the output directory |
| Packaging.InitPathsNest | cmd/packaging.go:113-375 | every path init creates (the filepath.Join calls at lines 113, 124, 176, 278, 289, 299, 310, 343 and 375) lies strictly below the format directory, and each file lies directly in a directory created before it |
| Packaging.SnapOutputPath | cmd/packaging.go:249 | the snap is moved directly into the snap output directory, under a name that splits at '_' into the stripped name and <arch>.snap |
| Packaging.DebOutputPath | cmd/packaging.go:436-437 | the deb is moved directly into the deb output directory, under a name that splits at '_' into the stripped name and <arch>.deb |
| Packaging.FormatPathsApart | cmd/packaging.go:54-61 | two formats never share or nest their configuration directories |
| Packaging.ChainRan | cmd/packaging.go:107-210 | calls that succeeded, followed by a segment, ran as their concatenation |
| Packaging.RanExtends | cmd/packaging.go:107-210 | after a failing call, no later call is made |
| Packaging.Workspace.RunPlan | cmd/packaging.go:212-260 | makes the calls of a build in order and ends the command at the first one that fails |
| Packaging.Workspace.Perform | cmd/packaging.go:68-72 | makes one call and records it in the trace; a failing call leaves the tree as it was and ends with an error, a successful one moves the tree to the call's result |
| Packaging.Workspace.WriteFile | cmd/packaging.go:130-169 | makes os.Create and then one WriteString per line, in order, stopping at the first failure |
| Packaging.Workspace.AssertPackagingFormatInitialized | cmd/packaging.go:75-80 | fails, as not initialized, exactly when os.Stat reports that nothing is at the format directory |
| Packaging.Workspace.CreatePackagingFormatDirectory | cmd/packaging.go:63-73 | refuses, changing nothing, exactly when the other guard passes; otherwise creates the directory, which cannot then fail |
| Packaging.Workspace.InitLinuxSnap | cmd/packaging.go:107-210 | wrong OS or existing directory: error and nothing changed; otherwise the init calls, in order, up to the first failure |
| Packaging.Workspace.InitLinuxDeb | cmd/packaging.go:262-408 | wrong OS; no author and no current user; existing directory: each an error with nothing changed; otherwise the init calls, in order |
| Packaging.Workspace.BuildLinuxSnap | cmd/packaging.go:212-260 | wrong OS, or snapcraft missing: an error with no call made, before any temporary directory exists; otherwise the build calls, in order |
| Packaging.Workspace.BuildLinuxDeb | cmd/packaging.go:410-459 | wrong OS, or dpkg-deb missing: an error with no call made; otherwise the build calls, in order |
| Effects.InitSnapEffect | cmd/packaging.go:107-210 | a fully successful snap init adds snap/local and its parents, snapcraft.yaml and the desktop entry with their rendered text, and the format then counts as initialized |
| Effects.InitDebEffect | cmd/packaging.go:262-408 | a fully successful deb init adds DEBIAN, usr/bin and usr/share/applications, and the control file, launcher and desktop entry with their rendered text |
| Effects.SnapBuildEffect | cmd/packaging.go:220-259 | a fully successful snap build adds only <stripped>_<arch>.snap to the snap output directory |
| Effects.DebBuildEffect | cmd/packaging.go:418-458 | a fully successful deb build adds only <stripped>_<arch>.deb to the deb output directory |
| Effects.SnapBuildFailure | cmd/packaging.go:220-259 | a failed snap build changed nothing if the temporary directory could not be made, and otherwise leaves that directory behind |
| Effects.DebBuildFailure | cmd/packaging.go:418-458 | the same for the deb build |
| Effects.DebBuildNames | cmd/packaging.go:436-450 | the name passed to dpkg-deb is the file that is moved and the name it is moved to |
| Effects.SnapBuildNames | cmd/packaging.go:249-250 | the rename takes the <stripped>_<version>_<arch>.snap handed to snapcraft as its artifact to <stripped>_<arch>.snap |

## Findings

| source | as written | input that shows it | evidently intended | confidence | as-written member | corrected member |
|---|---|---|---|---|---|---|
| cmd/packaging.go:343, cmd/packaging.go:391 | the deb desktop entry runs `/usr/bin/<project name>`, but init writes the launcher to `usr/bin/<stripped name>` | project name `my_app`: the entry runs `/usr/bin/my_app`, the package holds `/usr/bin/myapp` | `Exec=/usr/bin/<stripped name>`, the launcher init writes | high; not executed | Templates.DebDesktopEntry, Templates.DebDesktopExecNamesWrapper | Templates.CorrectedDebDesktopEntry, Templates.CorrectedDebDesktopEntryAgrees |

The init plans keep the entry as written, because they model what the code
writes. The corrected entry is stated and proved alongside it.

## Left out

- Messages printed to the terminal are not modelled, and neither are the standard streams handed to the packager. `os.Exit(1)` becomes an `Err` status.
- `filepath.Abs` failures and path cleaning are not modelled. Paths are lists of components, and the project's directories are parameters (`Layout`). `buildPath`, `outputDirectoryPath`, `getPubSpec` and `assertHoverInitialized` are not part of this model.
- The cobra command wiring is not modelled. The project name is the pubspec name, as the commands pass it.
- `ioutil.TempDir`'s random suffix and retries are not modelled. The suffix is the parameter `nonce`, and a name that is taken fails instead of being retried.
- `exec.LookPath` becomes membership in a set of tools. Running the packager becomes the parameter `run`, which either crashes or produces a package with given contents.
- FileSystem.DoRunPackager / Effects.SnapBuildNames: the model assumes snapcraft leaves `<stripped name>_<version>_<arch>.snap`, with the version of the pubspec at build time and Go's name for the architecture. Real snapcraft takes the name and version from the snapcraft.yaml written at init, and uses its own architecture names (amd64 for Go's amd64, but armhf for arm). After a version bump in the pubspec, the file the build renames is therefore missing and `os.Rename` fails. `Templates.SnapBuiltNameAcrossVersions` states when the two names agree.
- `copy.Copy` is modelled without symlinks, file modes or partial copies: a copy either fails whole or completes.
- `os.Chmod` on the launcher and the file modes passed to `MkdirAll` are not modelled, because the tree holds no permissions.
- `Close` on the written files is left out, and so are OS failures other than the structural ones (disk full, permission denied, a RemoveAll that fails).
- FileSystem.DoRename: renaming a directory is not modelled. The code only renames the package file.
- `user.Current` is modelled only as success or failure (`Option`). The user name it returns is never written anywhere: the control file's Maintainer line uses the pubspec author, even when that is empty.
- The build functions do not check that the format was initialized. Like the source, the model leaves a missing configuration to fail at the copy.
