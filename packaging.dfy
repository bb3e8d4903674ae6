/** The packaging commands of cmd/packaging.go: the OS guard, the two guards on
    the per-format configuration directory, `hover init-packaging linux-snap`
    and `linux-deb`, which write the configuration files, and the two build
    functions, which stage the inputs in a temporary directory, run the
    packager there and move the package it leaves to the output directory.
    Every failure in the source prints a message and ends the process with
    os.Exit(1); here it ends the command with an Err status, and the state is
    whatever the calls made so far left. */
module Packaging {
  import opened Text
  import opened Names
  import opened Templates
  import opened FileSystem
  import opened Runs

  /** What the running machine provides: runtime.GOOS, runtime.GOARCH, the
      executables exec.LookPath finds, and the directory ioutil.TempDir uses. */
  datatype Host = Host(os: string, arch: string, tools: set<string>, tempDir: Path)

  /** Where the project keeps things: the hover build directory, the output
      directory of the linux build, and the output directories of the two
      package formats. */
  datatype Layout = Layout(buildPath: Path, linuxOutput: Path, snapOutput: Path, debOutput: Path)

  datatype Error =
    | WrongOS(format: string, required: string)
    | AlreadyInitialized(format: string)
    | NotInitialized(format: string)
    | ToolNotFound(tool: string)
    | NoCurrentUser
    | FsFailure(cause: FsError)

  /** Success, or the failure the command reports before os.Exit(1). */
  datatype Status = Ok | Err(error: Error)

  datatype Option<T> = None | Some(value: T)

  const LinuxSnap: string := "linux-snap"
  const LinuxDeb: string := "linux-deb"

  /** The configuration directory of a format: <build>/packaging/<format>,
      two levels below the build directory and named after the format. */
  function PackagingFormatPath(layout: Layout, format: string): (p: Path)
    ensures layout.buildPath <= p && |p| == |layout.buildPath| + 2
    ensures p[|p| - 2] == "packaging" && p[|p| - 1] == format
  {
    layout.buildPath + ["packaging", format]
  }

  /** Two formats never share, or nest, their configuration directories. */
  lemma FormatPathsApart(layout: Layout, f: string, g: string)
    requires f != g
    ensures !(PackagingFormatPath(layout, f) <= PackagingFormatPath(layout, g))
  {
    var p := PackagingFormatPath(layout, f);
    var q := PackagingFormatPath(layout, g);
    assert p[|p| - 1] == f && q[|q| - 1] == g;
  }

  /** assertCorrectOS: the format's OS part, before the first '-', must be the
      host's OS. */
  function AssertCorrectOS(hostOs: string, format: string): (s: Status)
    ensures s == Ok <==> (hostOs <= format && '-' !in hostOs
                          && (|hostOs| == |format| || format[|hostOs|] == '-'))
    ensures s != Ok ==> s == Err(WrongOS(format, OsOf(format)))
  {
    OsOfIff(hostOs, format);
    if hostOs != OsOf(format) then Err(WrongOS(format, OsOf(format))) else Ok
  }

  /** assertCorrectOS for the two formats of this file, both of which belong
      to linux. */
  method AssertLinux(hostOs: string, format: string) returns (status: Status)
    requires format == LinuxSnap || format == LinuxDeb
    ensures status == Ok <==> hostOs == "linux"
    ensures status != Ok ==> status == Err(WrongOS(format, "linux"))
  {
    LinuxFormats();
    status := AssertCorrectOS(hostOs, format);
  }

  /** The directory ioutil.TempDir creates: one entry directly inside the
      host's temporary directory, named by the pattern followed by a string the
      host picks, here the parameter `nonce`. */
  function TempPath(host: Host, projectName: string, format: string, nonce: string): (t: Path)
    ensures |t| == |host.tempDir| + 1 && t[..|host.tempDir|] == host.tempDir
    ensures "hover-build-" + projectName + "-" + format <= t[|t| - 1]
  {
    host.tempDir + ["hover-build-" + projectName + "-" + format + nonce]
  }

  /** The status a command reports after running a list of calls. */
  predicate Reports(r: RunResult, status: Status)
  {
    if r.Completed? then status == Ok else status == Err(FsFailure(r.error))
  }

  /** From state `before`, the calls of `ops` were made in order up to the first
      failing one: `after` is the state they left, `status` what the command
      reports, and the trace grew by exactly the calls made. */
  ghost predicate Ran(before: Fs, beforeTrace: seq<Op>, ops: seq<Op>,
                      after: Fs, afterTrace: seq<Op>, status: Status)
  {
    var r := Run(before, ops);
    after == r.fs && Reports(r, status) && afterTrace == beforeTrace + ops[..Attempted(r, ops)]
  }

  /** A run that completed reports Ok and recorded every call. */
  lemma RanOk(before: Fs, beforeTrace: seq<Op>, ops: seq<Op>, after: Fs, afterTrace: seq<Op>)
    requires Run(before, ops) == Completed(after) && afterTrace == beforeTrace + ops
    ensures Ran(before, beforeTrace, ops, after, afterTrace, Ok)
  {
    assert ops[..|ops|] == ops;
  }

  /** Composing runs: the calls `done` led from `start` to s without failing,
      and a segment then ran from s; together they ran as done + seg. */
  lemma ChainRan(start: Fs, startTrace: seq<Op>, done: seq<Op>, s: Fs, sTrace: seq<Op>,
                 seg: seq<Op>, after: Fs, afterTrace: seq<Op>, status: Status)
    requires Ran(start, startTrace, done, s, sTrace, Ok)
    requires Ran(s, sTrace, seg, after, afterTrace, status)
    ensures Ran(start, startTrace, done + seg, after, afterTrace, status)
  {
    RunAfter(start, done, seg, s);
    TraceGrows(startTrace, done, seg, Attempted(Run(s, seg), seg));
  }

  /** The trace of `done` then a prefix of `seg` is a prefix of `done + seg`. */
  lemma TraceGrows(trace: seq<Op>, done: seq<Op>, seg: seq<Op>, n: nat)
    requires n <= |seg|
    ensures trace + done[..|done|] + seg[..n] == trace + (done + seg)[..|done| + n]
  {
    assert (done + seg)[..|done| + n] == done + seg[..n];
  }

  /** Calls after the one that failed are never made. */
  lemma RanExtends(start: Fs, startTrace: seq<Op>, ops: seq<Op>, rest: seq<Op>,
                   after: Fs, afterTrace: seq<Op>, status: Status)
    requires status != Ok && Ran(start, startTrace, ops, after, afterTrace, status)
    ensures Ran(start, startTrace, ops + rest, after, afterTrace, status)
  {
    RunConcat(start, ops, rest);
    var r := Run(start, ops);
    assert (ops + rest)[..r.at + 1] == ops[..r.at + 1];
  }

  /** ChainRan for a plan taken one call at a time: its first k calls led to
      s, and its call number k then ran from s. */
  lemma ChainAt(start: Fs, startTrace: seq<Op>, plan: seq<Op>, k: nat, s: Fs, sTrace: seq<Op>,
                after: Fs, afterTrace: seq<Op>, status: Status)
    requires k < |plan|
    requires Ran(start, startTrace, plan[..k], s, sTrace, Ok)
    requires Ran(s, sTrace, [plan[k]], after, afterTrace, status)
    ensures status == Ok ==> Ran(start, startTrace, plan[..k + 1], after, afterTrace, Ok)
    ensures status != Ok || k + 1 == |plan| ==> Ran(start, startTrace, plan, after, afterTrace, status)
  {
    ChainRan(start, startTrace, plan[..k], s, sTrace, [plan[k]], after, afterTrace, status);
    assert plan[..k] + [plan[k]] == plan[..k + 1];
    if status != Ok {
      RanExtends(start, startTrace, plan[..k + 1], plan[k + 1..], after, afterTrace, status);
      assert plan[..k + 1] + plan[k + 1..] == plan;
    } else if k + 1 == |plan| {
      assert plan[..k + 1] == plan;
    }
  }

  // ---- init plans -------------------------------------------------------

  /** The paths initLinuxSnap creates below the format directory. */
  function SnapLocalPath(layout: Layout): Path
  {
    PackagingFormatPath(layout, LinuxSnap) + ["snap", "local"]
  }

  function SnapcraftPath(layout: Layout): Path
  {
    PackagingFormatPath(layout, LinuxSnap) + ["snap", "snapcraft.yaml"]
  }

  function SnapDesktopFilePath(layout: Layout, projectName: string): Path
  {
    PackagingFormatPath(layout, LinuxSnap) + ["snap"] + SnapDesktopPath(projectName)
  }

  /** The calls initLinuxSnap makes once the guards pass, for the given file
      contents: the format directory first, and then only directories and
      files inside it. */
  function InitSnapCalls(layout: Layout, projectName: string, manifest: seq<string>, desktop: seq<string>): (plan: seq<Op>)
    ensures |plan| > 0 && plan[0] == MkdirAll(PackagingFormatPath(layout, LinuxSnap))
    ensures CreatesOnlyBelow(plan, PackagingFormatPath(layout, LinuxSnap))
  {
    var f := PackagingFormatPath(layout, LinuxSnap);
    var a := [MkdirAll(f)] + [MkdirAll(SnapLocalPath(layout))];
    var c := WriteFileOps(SnapcraftPath(layout), manifest);
    var d := WriteFileOps(SnapDesktopFilePath(layout, projectName), desktop);
    assert f <= SnapLocalPath(layout) && f <= SnapcraftPath(layout);
    assert f <= SnapDesktopFilePath(layout, projectName);
    assert CreatesOnlyBelow(a, f);
    WriteFileOpsBelow(a, SnapcraftPath(layout), manifest, f);
    WriteFileOpsBelow(a + c, SnapDesktopFilePath(layout, projectName), desktop, f);
    a + c + d
  }

  /** The calls initLinuxSnap makes once the guards pass. */
  function InitSnapPlan(layout: Layout, spec: PubSpec): (plan: seq<Op>)
    ensures |plan| > 0 && plan[0] == MkdirAll(PackagingFormatPath(layout, LinuxSnap))
    ensures CreatesOnlyBelow(plan, PackagingFormatPath(layout, LinuxSnap))
  {
    InitSnapCalls(layout, spec.name, SnapcraftManifest(spec), SnapDesktopEntry(spec))
  }

  /** The paths initLinuxDeb creates below the format directory. */
  function DebianPath(layout: Layout): Path
  {
    PackagingFormatPath(layout, LinuxDeb) + ["DEBIAN"]
  }

  function DebBinPath(layout: Layout): Path
  {
    PackagingFormatPath(layout, LinuxDeb) + ["usr", "bin"]
  }

  function DebApplicationsPath(layout: Layout): Path
  {
    PackagingFormatPath(layout, LinuxDeb) + ["usr", "share", "applications"]
  }

  function DebControlPath(layout: Layout): Path
  {
    DebianPath(layout) + ["control"]
  }

  function DebWrapperFilePath(layout: Layout, projectName: string): Path
  {
    PackagingFormatPath(layout, LinuxDeb) + DebWrapperPath(projectName)
  }

  function DebDesktopFilePath(layout: Layout, projectName: string): Path
  {
    DebApplicationsPath(layout) + [projectName + ".desktop"]
  }

  /** The calls initLinuxDeb makes once the guards pass, for the given file
      contents: the format directory first, and then only directories and
      files inside it. */
  function InitDebCalls(layout: Layout, projectName: string, control: seq<string>,
                        wrapper: seq<string>, desktop: seq<string>): (plan: seq<Op>)
    ensures |plan| > 0 && plan[0] == MkdirAll(PackagingFormatPath(layout, LinuxDeb))
    ensures CreatesOnlyBelow(plan, PackagingFormatPath(layout, LinuxDeb))
  {
    var f := PackagingFormatPath(layout, LinuxDeb);
    var a := [MkdirAll(f)] + [MkdirAll(DebianPath(layout))]
             + [MkdirAll(DebBinPath(layout))] + [MkdirAll(DebApplicationsPath(layout))];
    var w1 := WriteFileOps(DebControlPath(layout), control);
    var w2 := WriteFileOps(DebWrapperFilePath(layout, projectName), wrapper);
    var w3 := WriteFileOps(DebDesktopFilePath(layout, projectName), desktop);
    assert f <= DebianPath(layout) && f <= DebBinPath(layout) && f <= DebApplicationsPath(layout);
    assert CreatesOnlyBelow(a, f);
    assert f <= DebControlPath(layout) && f <= DebWrapperFilePath(layout, projectName);
    assert f <= DebDesktopFilePath(layout, projectName);
    WriteFileOpsBelow(a, DebControlPath(layout), control, f);
    WriteFileOpsBelow(a + w1, DebWrapperFilePath(layout, projectName), wrapper, f);
    WriteFileOpsBelow(a + w1 + w2, DebDesktopFilePath(layout, projectName), desktop, f);
    a + w1 + w2 + w3
  }

  /** The calls initLinuxDeb makes once the guards pass. */
  function InitDebPlan(layout: Layout, spec: PubSpec, arch: string): (plan: seq<Op>)
    ensures |plan| > 0 && plan[0] == MkdirAll(PackagingFormatPath(layout, LinuxDeb))
    ensures CreatesOnlyBelow(plan, PackagingFormatPath(layout, LinuxDeb))
  {
    InitDebCalls(layout, spec.name, DebControl(spec, arch), DebWrapper(spec.name), DebDesktopEntry(spec))
  }

  /** Each file init writes lies directly in a directory it creates before,
      and every path it creates lies strictly below the format directory. */
  lemma InitPathsNest(layout: Layout, projectName: string)
    ensures var f := PackagingFormatPath(layout, LinuxSnap);
      && f < SnapLocalPath(layout) && f < SnapcraftPath(layout)
      && Parent(SnapcraftPath(layout)) == f + ["snap"] && f + ["snap"] <= SnapLocalPath(layout)
      && Parent(SnapDesktopFilePath(layout, projectName)) == SnapLocalPath(layout)
    ensures var f := PackagingFormatPath(layout, LinuxDeb);
      && f < DebianPath(layout) && f < DebBinPath(layout) && f < DebApplicationsPath(layout)
      && Parent(DebControlPath(layout)) == DebianPath(layout)
      && Parent(DebWrapperFilePath(layout, projectName)) == DebBinPath(layout)
      && Parent(DebDesktopFilePath(layout, projectName)) == DebApplicationsPath(layout)
  {
    var f := PackagingFormatPath(layout, LinuxDeb);
    assert DebWrapperFilePath(layout, projectName) == f + ["usr", "bin"] + [RemoveDashesAndUnderscores(projectName)];
    assert SnapDesktopFilePath(layout, projectName)
        == PackagingFormatPath(layout, LinuxSnap) + ["snap", "local"] + [projectName + ".desktop"];
  }

  // ---- build plans ------------------------------------------------------

  /** Where buildLinuxSnap moves the snap: directly inside the snap output
      directory, under a name that splits at '_' into the stripped project
      name and <arch>.snap. */
  function SnapOutputPath(host: Host, layout: Layout, spec: PubSpec): (p: Path)
    ensures p != [] && Parent(p) == layout.snapOutput
    ensures '_' !in host.arch ==>
      SplitOn(p[|p| - 1], '_') == [RemoveDashesAndUnderscores(spec.name), host.arch + ".snap"]
  {
    layout.snapOutput + [SnapPackageName(spec.name, host.arch)]
  }

  /** Where buildLinuxDeb moves the package: directly inside the deb output
      directory, under a name that splits at '_' into the stripped project
      name and <arch>.deb. */
  function DebOutputPath(host: Host, layout: Layout, spec: PubSpec): (p: Path)
    ensures p != [] && Parent(p) == layout.debOutput
    ensures '_' !in host.arch ==>
      SplitOn(p[|p| - 1], '_') == [RemoveDashesAndUnderscores(spec.name), host.arch + ".deb"]
  {
    layout.debOutput + [DebPackageName(spec.name, host.arch)]
  }

  /** The staging copies of buildLinuxSnap: assets, the Linux build output and
      the snap configuration, all into the temporary directory. */
  function SnapCopies(host: Host, layout: Layout, spec: PubSpec, nonce: string): (copies: seq<Op>)
    ensures |copies| == 3 && CopiesInto(copies, TempPath(host, spec.name, LinuxSnap, nonce))
  {
    var t := TempPath(host, spec.name, LinuxSnap, nonce);
    assert t <= t + ["assets"] && t <= t + ["build"];
    [ Copy(layout.buildPath + ["assets"], t + ["assets"]),
      Copy(layout.linuxOutput, t + ["build"]),
      Copy(PackagingFormatPath(layout, LinuxSnap), t) ]
  }

  /** The staging copies of buildLinuxDeb: the Linux build output under
      usr/lib/<name> and the deb configuration, into the temporary directory. */
  function DebCopies(host: Host, layout: Layout, spec: PubSpec, nonce: string): (copies: seq<Op>)
    ensures |copies| == 2 && CopiesInto(copies, TempPath(host, spec.name, LinuxDeb, nonce))
  {
    var t := TempPath(host, spec.name, LinuxDeb, nonce);
    assert t <= t + DebLibPath(spec.name);
    [ Copy(layout.linuxOutput, t + DebLibPath(spec.name)),
      Copy(PackagingFormatPath(layout, LinuxDeb), t) ]
  }

  /** The calls buildLinuxSnap makes once snapcraft is found: a fresh temporary
      directory is made first and removed last; in between, the copies into
      it, snapcraft run inside it, and the move of the versioned snap it is
      expected to leave there to the stable name in the output directory. */
  function SnapBuildPlan(host: Host, layout: Layout, spec: PubSpec, nonce: string, run: PackagerRun): (plan: seq<Op>)
    ensures var t := TempPath(host, spec.name, LinuxSnap, nonce);
      var built := t + [SnapBuiltName(spec, host.arch)];
      && |plan| == 7 && plan[0] == Mkdir(t) && plan[6] == RemoveAll(t)
      && (forall i :: 1 <= i < 4 ==> plan[i].Copy? && t <= plan[i].dst)
      && plan[4] == RunPackager("snapcraft", t, [], built, run)
      && plan[5] == Rename(built, SnapOutputPath(host, layout, spec))
  {
    var t := TempPath(host, spec.name, LinuxSnap, nonce);
    var copies := SnapCopies(host, layout, spec, nonce);
    var plan := StagedBuild(t, copies, "snapcraft", [], SnapBuiltName(spec, host.arch), run,
                            SnapOutputPath(host, layout, spec));
    assert forall i :: 1 <= i < 4 ==> plan[i] == copies[i - 1];
    plan
  }

  /** The calls buildLinuxDeb makes once dpkg-deb is found: a fresh temporary
      directory is made first and removed last; in between, the copies into
      it, dpkg-deb run inside it with the package name as its output, and the
      move of that file to the output directory under the same name. */
  function DebBuildPlan(host: Host, layout: Layout, spec: PubSpec, nonce: string, run: PackagerRun): (plan: seq<Op>)
    ensures var t := TempPath(host, spec.name, LinuxDeb, nonce);
      var name := DebPackageName(spec.name, host.arch);
      && |plan| == 6 && plan[0] == Mkdir(t) && plan[5] == RemoveAll(t)
      && (forall i :: 1 <= i < 3 ==> plan[i].Copy? && t <= plan[i].dst)
      && plan[3] == RunPackager("dpkg-deb", t, ["--build", ".", name], t + [name], run)
      && plan[4] == Rename(t + [name], DebOutputPath(host, layout, spec))
  {
    var t := TempPath(host, spec.name, LinuxDeb, nonce);
    var name := DebPackageName(spec.name, host.arch);
    var copies := DebCopies(host, layout, spec, nonce);
    var plan := StagedBuild(t, copies, "dpkg-deb", ["--build", ".", name], name, run,
                            DebOutputPath(host, layout, spec));
    assert forall i :: 1 <= i < 3 ==> plan[i] == copies[i - 1];
    plan
  }

  // ---- the commands -----------------------------------------------------

  /** The project directory as the packaging commands see and change it. */
  class Workspace {
    var files: map<Path, string>
    var dirs: set<Path>
    /** Every filesystem call made so far, in order. */
    ghost var trace: seq<Op>

    function State(): Fs
      reads this
    {
      Fs(files, dirs)
    }

    constructor (fs: Fs)
      ensures State() == fs && trace == []
    {
      files := fs.files;
      dirs := fs.dirs;
      trace := [];
    }

    /** One call into the operating system. */
    method Perform(op: Op) returns (status: Status)
      modifies this
      ensures Ran(old(State()), old(trace), [op], State(), trace, status)
    {
      ghost var before := State();
      assert [op][0] == op && [op][1..] == [];
      trace := trace + [op];
      match Apply(State(), op)
      case Failed(e) =>
        status := Err(FsFailure(e));
      case Done(next) =>
        files, dirs := next.files, next.dirs;
        status := Ok;
        assert Run(before, [op]) == Completed(next);
    }

    /** Makes the calls of a plan in order; the first one that fails ends the
        command, so no later call is made. */
    method RunPlan(plan: seq<Op>) returns (status: Status)
      modifies this
      ensures Ran(old(State()), old(trace), plan, State(), trace, status)
    {
      ghost var start, startTrace := State(), trace;
      RanOk(start, startTrace, plan[..0], start, startTrace);
      status := Ok;
      for k := 0 to |plan|
        invariant status == Ok && Ran(start, startTrace, plan[..k], State(), trace, Ok)
      {
        ghost var s, t := State(), trace;
        status := Perform(plan[k]);
        ChainAt(start, startTrace, plan, k, s, t, State(), trace, status);
        if status.Err? {
          return;
        }
      }
      assert plan[..|plan|] == plan;
    }

    /** os.Create, then WriteString(line + "\n") for each line in order,
        stopping at the first call that fails. */
    method WriteFile(p: Path, lines: seq<string>) returns (status: Status)
      modifies this
      ensures Ran(old(State()), old(trace), WriteFileOps(p, lines), State(), trace, status)
    {
      ghost var start, startTrace := State(), trace;
      ghost var plan := WriteFileOps(p, lines);
      assert plan[0] == Create(p);
      RanOk(start, startTrace, plan[..0], start, startTrace);
      status := Perform(Create(p));
      ChainAt(start, startTrace, plan, 0, start, startTrace, State(), trace, status);
      if status.Err? {
        return;
      }
      for i := 0 to |lines|
        invariant status == Ok && Ran(start, startTrace, plan[..i + 1], State(), trace, Ok)
      {
        ghost var s, t := State(), trace;
        var op := Append(p, lines[i] + "\n");
        assert plan[i + 1] == op;
        status := Perform(op);
        ChainAt(start, startTrace, plan, i + 1, s, t, State(), trace, status);
        if status.Err? {
          return;
        }
      }
      assert plan[..|lines| + 1] == plan;
    }

    /** assertPackagingFormatInitialized: fails exactly when os.Stat reports
        that nothing exists at the format's configuration directory. */
    method AssertPackagingFormatInitialized(layout: Layout, format: string) returns (status: Status)
      ensures status == Ok <==> !StatNotExist(State(), PackagingFormatPath(layout, format))
      ensures status != Ok ==> status == Err(NotInitialized(format))
    {
      if StatNotExist(State(), PackagingFormatPath(layout, format)) {
        return Err(NotInitialized(format));
      }
      return Ok;
    }

    /** createPackagingFormatDirectory: refuses unless os.Stat reports that
        nothing exists at the format's configuration directory, and otherwise
        creates it with its parents, which then cannot fail. */
    method CreatePackagingFormatDirectory(layout: Layout, format: string) returns (status: Status)
      modifies this
      ensures var dir := PackagingFormatPath(layout, format);
        !StatNotExist(old(State()), dir) ==>
          status == Err(AlreadyInitialized(format)) && State() == old(State()) && trace == old(trace)
      ensures var dir := PackagingFormatPath(layout, format);
        StatNotExist(old(State()), dir) ==>
          && Ran(old(State()), old(trace), [MkdirAll(dir)], State(), trace, status)
          && status == Ok && State() == Fs(old(files), old(dirs) + Lineage(dir))
    {
      var dir := PackagingFormatPath(layout, format);
      if !StatNotExist(State(), dir) {
        return Err(AlreadyInitialized(format));
      }
      StatNotExistMkdirAll(State(), dir);
      assert Run(State(), [MkdirAll(dir)]) == Completed(Fs(files, dirs + Lineage(dir)));
      status := Perform(MkdirAll(dir));
    }

    /** initLinuxSnap: the OS guard, the directory guard, then the snap/local
        directory, snapcraft.yaml and the desktop entry. */
    method InitLinuxSnap(host: Host, layout: Layout, spec: PubSpec) returns (status: Status)
      modifies this
      ensures host.os != "linux" ==>
        status == Err(WrongOS(LinuxSnap, "linux")) && State() == old(State()) && trace == old(trace)
      ensures host.os == "linux" && !StatNotExist(old(State()), PackagingFormatPath(layout, LinuxSnap)) ==>
        status == Err(AlreadyInitialized(LinuxSnap)) && State() == old(State()) && trace == old(trace)
      ensures host.os == "linux" && StatNotExist(old(State()), PackagingFormatPath(layout, LinuxSnap)) ==>
        Ran(old(State()), old(trace), InitSnapPlan(layout, spec), State(), trace, status)
    {
      status := AssertLinux(host.os, LinuxSnap);
      if status.Err? {
        return;
      }
      ghost var start, startTrace := State(), trace;
      var snapDirectoryPath := PackagingFormatPath(layout, LinuxSnap);
      var snapLocalDirectoryPath := SnapLocalPath(layout);
      var snapcraftFilePath := SnapcraftPath(layout);
      var desktopFilePath := SnapDesktopFilePath(layout, spec.name);
      ghost var a, b := [MkdirAll(snapDirectoryPath)], [MkdirAll(snapLocalDirectoryPath)];
      ghost var c := WriteFileOps(snapcraftFilePath, SnapcraftManifest(spec));
      ghost var d := WriteFileOps(desktopFilePath, SnapDesktopEntry(spec));
      assert InitSnapPlan(layout, spec) == a + b + c + d;

      status := CreatePackagingFormatDirectory(layout, LinuxSnap);
      if status.Err? {
        return;
      }

      ghost var s1, t1 := State(), trace;
      status := Perform(MkdirAll(snapLocalDirectoryPath));
      ChainRan(start, startTrace, a, s1, t1, b, State(), trace, status);
      if status.Err? {
        RanExtends(start, startTrace, a + b, c, State(), trace, status);
        RanExtends(start, startTrace, a + b + c, d, State(), trace, status);
        return;
      }

      var snapcraftFileContent := SnapcraftFileContent(spec);
      ghost var s2, t2 := State(), trace;
      status := WriteFile(snapcraftFilePath, snapcraftFileContent);
      ChainRan(start, startTrace, a + b, s2, t2, c, State(), trace, status);
      if status.Err? {
        RanExtends(start, startTrace, a + b + c, d, State(), trace, status);
        return;
      }

      ghost var s3, t3 := State(), trace;
      status := WriteFile(desktopFilePath, SnapDesktopEntry(spec));
      ChainRan(start, startTrace, a + b + c, s3, t3, d, State(), trace, status);
    }

    /** initLinuxDeb: the OS guard; when the pubspec has no author, the current
        user must be found (its name is not used further); the directory guard;
        then the DEBIAN, usr/bin and usr/share/applications directories, the
        control file, the launcher script and the desktop entry. */
    method InitLinuxDeb(host: Host, layout: Layout, spec: PubSpec, currentUser: Option<string>)
      returns (status: Status)
      modifies this
      ensures host.os != "linux" ==>
        status == Err(WrongOS(LinuxDeb, "linux")) && State() == old(State()) && trace == old(trace)
      ensures host.os == "linux" && spec.author == "" && currentUser.None? ==>
        status == Err(NoCurrentUser) && State() == old(State()) && trace == old(trace)
      ensures host.os == "linux" && (spec.author != "" || currentUser.Some?)
              && !StatNotExist(old(State()), PackagingFormatPath(layout, LinuxDeb)) ==>
        status == Err(AlreadyInitialized(LinuxDeb)) && State() == old(State()) && trace == old(trace)
      ensures host.os == "linux" && (spec.author != "" || currentUser.Some?)
              && StatNotExist(old(State()), PackagingFormatPath(layout, LinuxDeb)) ==>
        Ran(old(State()), old(trace), InitDebPlan(layout, spec, host.arch), State(), trace, status)
    {
      status := AssertLinux(host.os, LinuxDeb);
      if status.Err? {
        return;
      }
      if spec.author == "" && currentUser.None? {
        return Err(NoCurrentUser);
      }
      ghost var start, startTrace := State(), trace;
      var debDirectoryPath := PackagingFormatPath(layout, LinuxDeb);
      ghost var a1, a2 := [MkdirAll(debDirectoryPath)], [MkdirAll(DebianPath(layout))];
      ghost var a3, a4 := [MkdirAll(DebBinPath(layout))], [MkdirAll(DebApplicationsPath(layout))];
      ghost var w1 := WriteFileOps(DebControlPath(layout), DebControl(spec, host.arch));
      ghost var w2 := WriteFileOps(DebWrapperFilePath(layout, spec.name), DebWrapper(spec.name));
      ghost var w3 := WriteFileOps(DebDesktopFilePath(layout, spec.name), DebDesktopEntry(spec));
      assert InitDebPlan(layout, spec, host.arch) == a1 + a2 + a3 + a4 + w1 + w2 + w3;

      status := CreatePackagingFormatDirectory(layout, LinuxDeb);
      if status.Err? {
        return;
      }

      ghost var s, t := State(), trace;
      status := Perform(MkdirAll(DebianPath(layout)));
      ChainRan(start, startTrace, a1, s, t, a2, State(), trace, status);
      if status.Err? {
        RanExtends(start, startTrace, a1 + a2, a3, State(), trace, status);
        RanExtends(start, startTrace, a1 + a2 + a3, a4, State(), trace, status);
        RanExtends(start, startTrace, a1 + a2 + a3 + a4, w1, State(), trace, status);
        RanExtends(start, startTrace, a1 + a2 + a3 + a4 + w1, w2, State(), trace, status);
        RanExtends(start, startTrace, a1 + a2 + a3 + a4 + w1 + w2, w3, State(), trace, status);
        return;
      }

      s, t := State(), trace;
      status := Perform(MkdirAll(DebBinPath(layout)));
      ChainRan(start, startTrace, a1 + a2, s, t, a3, State(), trace, status);
      if status.Err? {
        RanExtends(start, startTrace, a1 + a2 + a3, a4, State(), trace, status);
        RanExtends(start, startTrace, a1 + a2 + a3 + a4, w1, State(), trace, status);
        RanExtends(start, startTrace, a1 + a2 + a3 + a4 + w1, w2, State(), trace, status);
        RanExtends(start, startTrace, a1 + a2 + a3 + a4 + w1 + w2, w3, State(), trace, status);
        return;
      }

      s, t := State(), trace;
      status := Perform(MkdirAll(DebApplicationsPath(layout)));
      ChainRan(start, startTrace, a1 + a2 + a3, s, t, a4, State(), trace, status);
      if status.Err? {
        RanExtends(start, startTrace, a1 + a2 + a3 + a4, w1, State(), trace, status);
        RanExtends(start, startTrace, a1 + a2 + a3 + a4 + w1, w2, State(), trace, status);
        RanExtends(start, startTrace, a1 + a2 + a3 + a4 + w1 + w2, w3, State(), trace, status);
        return;
      }

      s, t := State(), trace;
      status := WriteFile(DebControlPath(layout), DebControl(spec, host.arch));
      ChainRan(start, startTrace, a1 + a2 + a3 + a4, s, t, w1, State(), trace, status);
      if status.Err? {
        RanExtends(start, startTrace, a1 + a2 + a3 + a4 + w1, w2, State(), trace, status);
        RanExtends(start, startTrace, a1 + a2 + a3 + a4 + w1 + w2, w3, State(), trace, status);
        return;
      }

      s, t := State(), trace;
      status := WriteFile(DebWrapperFilePath(layout, spec.name), DebWrapper(spec.name));
      ChainRan(start, startTrace, a1 + a2 + a3 + a4 + w1, s, t, w2, State(), trace, status);
      if status.Err? {
        RanExtends(start, startTrace, a1 + a2 + a3 + a4 + w1 + w2, w3, State(), trace, status);
        return;
      }

      s, t := State(), trace;
      status := WriteFile(DebDesktopFilePath(layout, spec.name), DebDesktopEntry(spec));
      ChainRan(start, startTrace, a1 + a2 + a3 + a4 + w1 + w2, s, t, w3, State(), trace, status);
    }


    /** buildLinuxSnap: the OS guard, the lookup of snapcraft, then the staged
        build: a fresh temporary directory, the assets, the linux build output
        and the snap configuration copied into it, snapcraft run there, the
        versioned snap moved to the output directory under its stable name,
        and the temporary directory removed. */
    method BuildLinuxSnap(host: Host, layout: Layout, spec: PubSpec, nonce: string, run: PackagerRun)
      returns (status: Status)
      modifies this
      ensures host.os != "linux" ==>
        status == Err(WrongOS(LinuxSnap, "linux")) && State() == old(State()) && trace == old(trace)
      ensures host.os == "linux" && "snapcraft" !in host.tools ==>
        status == Err(ToolNotFound("snapcraft")) && State() == old(State()) && trace == old(trace)
      ensures host.os == "linux" && "snapcraft" in host.tools ==>
        Ran(old(State()), old(trace), SnapBuildPlan(host, layout, spec, nonce, run), State(), trace, status)
    {
      status := AssertLinux(host.os, LinuxSnap);
      if status.Err? {
        return;
      }
      if "snapcraft" !in host.tools {
        return Err(ToolNotFound("snapcraft"));
      }
      status := RunPlan(SnapBuildPlan(host, layout, spec, nonce, run));
    }

    /** buildLinuxDeb: the OS guard, the lookup of dpkg-deb, then the staged
        build: a fresh temporary directory, the linux build output copied to
        usr/lib/<name> in it and the deb configuration merged into it, dpkg-deb
        run there with the package name as its output, that file moved to the
        output directory, and the temporary directory removed. */
    method BuildLinuxDeb(host: Host, layout: Layout, spec: PubSpec, nonce: string, run: PackagerRun)
      returns (status: Status)
      modifies this
      ensures host.os != "linux" ==>
        status == Err(WrongOS(LinuxDeb, "linux")) && State() == old(State()) && trace == old(trace)
      ensures host.os == "linux" && "dpkg-deb" !in host.tools ==>
        status == Err(ToolNotFound("dpkg-deb")) && State() == old(State()) && trace == old(trace)
      ensures host.os == "linux" && "dpkg-deb" in host.tools ==>
        Ran(old(State()), old(trace), DebBuildPlan(host, layout, spec, nonce, run), State(), trace, status)
    {
      status := AssertLinux(host.os, LinuxDeb);
      if status.Err? {
        return;
      }
      if "dpkg-deb" !in host.tools {
        return Err(ToolNotFound("dpkg-deb"));
      }
      status := RunPlan(DebBuildPlan(host, layout, spec, nonce, run));
    }
  }
}
