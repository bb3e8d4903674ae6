/** What the packaging commands do to the project tree as a whole, when every
    call succeeds and when one fails. */
module Effects {
  import opened Text
  import opened Names
  import opened Templates
  import opened FileSystem
  import opened Runs
  import opened Packaging

  // ---- helpers on paths -----------------------------------------------

  /** The last component of a path, or "" for the root. */
  function Last(p: Path): string
  {
    if p == [] then "" else p[|p| - 1]
  }

  lemma LineageGrows(p: Path, q: Path)
    requires p <= q
    ensures Lineage(p) <= Lineage(q)
  {
    forall d | d in Lineage(p)
      ensures d in Lineage(q)
    {
      var i :| 1 <= i <= |p| && d == p[..i];
      assert d == q[..i];
    }
  }

  /** Paths that differ at some component are not on each other's way down. */
  lemma ApartAt(p: Path, q: Path, k: nat)
    requires k < |p| && k < |q| && p[k] != q[k]
    ensures p !in Lineage(q)
  {
    forall i | 1 <= i <= |q|
      ensures q[..i] != p
    {
      if i == |p| {
        assert q[..i][k] == q[k];
      }
    }
  }

  /** With nothing at f and no file on the way down to it, no file stands on
      the way down to any path below f. */
  lemma NoFileOnPath(fs: Fs, f: Path, p: Path)
    requires Valid(fs) && !Exists(fs, f)
    requires forall i :: 1 <= i <= |f| ==> f[..i] !in fs.files
    requires f <= p
    ensures forall i :: 1 <= i <= |p| ==> p[..i] !in fs.files
  {
    FreshSubtree(fs, f);
    forall i | 1 <= i <= |p|
      ensures p[..i] !in fs.files
    {
      if i <= |f| {
        assert p[..i] == f[..i];
      } else {
        assert p[..i][..|f|] == f;
      }
    }
  }

  /** os.MkdirAll on a path below an f os.Stat reports missing adds exactly
      the directories on the way down to it. */
  lemma MkdirAllBelow(fs: Fs, start: Fs, f: Path, p: Path)
    requires Valid(start) && StatNotExist(start, f)
    requires f <= p && fs.files == start.files
    ensures Apply(fs, MkdirAll(p)) == Done(Fs(fs.files, fs.dirs + Lineage(p)))
  {
    StatNotExistMkdirAll(start, f);
    NoFileOnPath(start, f, p);
    assert forall i :: 1 <= i <= |p| ==> p[..i] !in fs.files;
  }

  // ---- init -------------------------------------------------------------

  /** The two MkdirAll calls of initLinuxSnap add the lineage of snap/local. */
  lemma InitSnapDirs(fs: Fs, layout: Layout)
    requires Valid(fs)
    requires StatNotExist(fs, PackagingFormatPath(layout, LinuxSnap))
    ensures Run(fs, [MkdirAll(PackagingFormatPath(layout, LinuxSnap))] + [MkdirAll(SnapLocalPath(layout))])
         == Completed(Fs(fs.files, fs.dirs + Lineage(SnapLocalPath(layout))))
  {
    var f := PackagingFormatPath(layout, LinuxSnap);
    var local := SnapLocalPath(layout);
    var s1 := Fs(fs.files, fs.dirs + Lineage(f));
    MkdirAllBelow(fs, fs, f, f);
    assert Run(fs, [MkdirAll(f)]) == Completed(s1);
    var s2 := Fs(fs.files, fs.dirs + Lineage(local));
    assert f <= local;
    MkdirAllBelow(s1, fs, f, local);
    LineageGrows(f, local);
    assert s1.dirs + Lineage(local) == s2.dirs;
    assert Run(s1, [MkdirAll(local)]) == Completed(s2);
    RunConcat(fs, [MkdirAll(f)], [MkdirAll(local)]);
  }

  /** A path no longer than q, below the fresh f and not a prefix of q, is
      neither an existing directory nor one MkdirAll(q) creates. */
  lemma NotInLineage(fs: Fs, f: Path, q: Path, p: Path)
    requires Valid(fs) && !Exists(fs, f) && f <= p
    requires forall i :: 1 <= i <= |q| ==> q[..i] != p
    ensures p !in fs.dirs + Lineage(q)
  {
    FreshSubtree(fs, f);
  }

  /** With nothing at the format directory and no file on the way down to it,
      initLinuxSnap's calls all succeed: they add the directories down to
      snap/local, and the two files holding the rendered snapcraft.yaml and
      desktop entry; nothing else changes. */
  lemma InitSnapEffect(fs: Fs, layout: Layout, spec: PubSpec)
    requires Valid(fs)
    requires StatNotExist(fs, PackagingFormatPath(layout, LinuxSnap))
    ensures Run(fs, InitSnapPlan(layout, spec))
         == Completed(Fs(fs.files[SnapcraftPath(layout) := Render(SnapcraftManifest(spec))]
                                 [SnapDesktopFilePath(layout, spec.name) := Render(SnapDesktopEntry(spec))],
                         fs.dirs + Lineage(SnapLocalPath(layout))))
    ensures PackagingFormatPath(layout, LinuxSnap) in Run(fs, InitSnapPlan(layout, spec)).fs.dirs
  {
    var f := PackagingFormatPath(layout, LinuxSnap);
    var local := SnapLocalPath(layout);
    var yaml := SnapcraftPath(layout);
    var desktop := SnapDesktopFilePath(layout, spec.name);
    var dirs := [MkdirAll(f)] + [MkdirAll(local)];
    var w1 := WriteFileOps(yaml, SnapcraftManifest(spec));
    var w2 := WriteFileOps(desktop, SnapDesktopEntry(spec));
    InitSnapDirs(fs, layout);
    var s2 := Fs(fs.files, fs.dirs + Lineage(local));
    SnapFilesFresh(fs, layout, spec);
    WriteNewFile(s2, yaml, SnapcraftManifest(spec));
    var s3 := Fs(fs.files[yaml := Render(SnapcraftManifest(spec))], s2.dirs);
    RunThen(fs, dirs, w1, s2, s3);
    WriteNewFile(s3, desktop, SnapDesktopEntry(spec));
    var s4 := Fs(s3.files[desktop := Render(SnapDesktopEntry(spec))], s2.dirs);
    RunThen(fs, dirs + w1, w2, s3, s4);
    assert f == local[..|f|];
  }

  /** The two files initLinuxSnap writes land in directories snap/local
      provides, and neither is one of them. */
  lemma SnapFilesFresh(fs: Fs, layout: Layout, spec: PubSpec)
    requires Valid(fs)
    requires StatNotExist(fs, PackagingFormatPath(layout, LinuxSnap))
    ensures SnapcraftPath(layout) !in fs.dirs + Lineage(SnapLocalPath(layout))
    ensures SnapDesktopFilePath(layout, spec.name) !in fs.dirs + Lineage(SnapLocalPath(layout))
    ensures Parent(SnapcraftPath(layout)) in Lineage(SnapLocalPath(layout))
    ensures Parent(SnapDesktopFilePath(layout, spec.name)) in Lineage(SnapLocalPath(layout))
  {
    var f := PackagingFormatPath(layout, LinuxSnap);
    var local := SnapLocalPath(layout);
    var yaml := SnapcraftPath(layout);
    var desktop := SnapDesktopFilePath(layout, spec.name);
    assert forall i :: 1 <= i <= |local| ==> local[..i] != yaml by {
      forall i | 1 <= i <= |local| ensures local[..i] != yaml {
        if i == |local| { assert local[..i][|f| + 1] != yaml[|f| + 1]; }
      }
    }
    NotInLineage(fs, f, local, yaml);
    NotInLineage(fs, f, local, desktop);
    assert Parent(yaml) == local[..|f| + 1];
    assert Parent(desktop) == local[..|local|];
  }

  /** The four MkdirAll calls of initLinuxDeb add the lineages of DEBIAN,
      usr/bin and usr/share/applications. */
  lemma InitDebDirs(fs: Fs, layout: Layout)
    requires Valid(fs)
    requires StatNotExist(fs, PackagingFormatPath(layout, LinuxDeb))
    ensures Run(fs, [MkdirAll(PackagingFormatPath(layout, LinuxDeb))] + [MkdirAll(DebianPath(layout))]
                      + [MkdirAll(DebBinPath(layout))] + [MkdirAll(DebApplicationsPath(layout))])
         == Completed(Fs(fs.files, fs.dirs + Lineage(DebianPath(layout)) + Lineage(DebBinPath(layout))
                                  + Lineage(DebApplicationsPath(layout))))
  {
    var f := PackagingFormatPath(layout, LinuxDeb);
    var a, b, c := DebianPath(layout), DebBinPath(layout), DebApplicationsPath(layout);
    assert f <= a && f <= b && f <= c;
    LineageGrows(f, a);
    var s1 := Fs(fs.files, fs.dirs + Lineage(f));
    MkdirAllBelow(fs, fs, f, f);
    assert Run(fs, [MkdirAll(f)]) == Completed(s1);
    var s2 := Fs(fs.files, fs.dirs + Lineage(a));
    MkdirAllBelow(s1, fs, f, a);
    assert s1.dirs + Lineage(a) == s2.dirs;
    assert Run(s1, [MkdirAll(a)]) == Completed(s2);
    RunThen(fs, [MkdirAll(f)], [MkdirAll(a)], s1, s2);
    var s3 := Fs(fs.files, s2.dirs + Lineage(b));
    MkdirAllBelow(s2, fs, f, b);
    assert Run(s2, [MkdirAll(b)]) == Completed(s3);
    RunThen(fs, [MkdirAll(f)] + [MkdirAll(a)], [MkdirAll(b)], s2, s3);
    var s4 := Fs(fs.files, s3.dirs + Lineage(c));
    MkdirAllBelow(s3, fs, f, c);
    assert Run(s3, [MkdirAll(c)]) == Completed(s4);
    RunThen(fs, [MkdirAll(f)] + [MkdirAll(a)] + [MkdirAll(b)], [MkdirAll(c)], s3, s4);
  }

  /** The three files of initLinuxDeb are at paths no MkdirAll of it creates,
      in directories those calls provide. */
  lemma DebFilesNotDirs(fs: Fs, layout: Layout, name: string)
    requires Valid(fs) && !Exists(fs, PackagingFormatPath(layout, LinuxDeb))
    ensures var dirs := fs.dirs + Lineage(DebianPath(layout)) + Lineage(DebBinPath(layout))
                          + Lineage(DebApplicationsPath(layout));
      && DebControlPath(layout) !in dirs
      && DebWrapperFilePath(layout, name) !in dirs
      && DebDesktopFilePath(layout, name) !in dirs
    ensures Parent(DebControlPath(layout)) in Lineage(DebianPath(layout))
    ensures Parent(DebWrapperFilePath(layout, name)) in Lineage(DebBinPath(layout))
    ensures Parent(DebDesktopFilePath(layout, name)) in Lineage(DebApplicationsPath(layout))
  {
    var f := PackagingFormatPath(layout, LinuxDeb);
    var a, b, c := DebianPath(layout), DebBinPath(layout), DebApplicationsPath(layout);
    var control, wrapper, desktop := DebControlPath(layout), DebWrapperFilePath(layout, name), DebDesktopFilePath(layout, name);
    FreshSubtree(fs, f);
    ApartAt(control, b, |f|);
    ApartAt(control, c, |f|);
    ApartAt(wrapper, c, |f| + 1);
    assert f <= desktop && |desktop| > |c| > |a| && |desktop| > |b|;
    assert Parent(control) == a[..|a|] && Parent(wrapper) == b[..|b|] && Parent(desktop) == c[..|c|];
  }

  /** With nothing at the format directory and no file on the way down to it,
      initLinuxDeb's calls all succeed: they add the directories DEBIAN,
      usr/bin and usr/share/applications with their parents, and the control
      file, the launcher and the desktop entry; nothing else changes. */
  lemma InitDebEffect(fs: Fs, layout: Layout, spec: PubSpec, arch: string)
    requires Valid(fs)
    requires StatNotExist(fs, PackagingFormatPath(layout, LinuxDeb))
    ensures Run(fs, InitDebPlan(layout, spec, arch))
         == Completed(Fs(fs.files[DebControlPath(layout) := Render(DebControl(spec, arch))]
                                 [DebWrapperFilePath(layout, spec.name) := Render(DebWrapper(spec.name))]
                                 [DebDesktopFilePath(layout, spec.name) := Render(DebDesktopEntry(spec))],
                         fs.dirs + Lineage(DebianPath(layout)) + Lineage(DebBinPath(layout))
                                 + Lineage(DebApplicationsPath(layout))))
    ensures PackagingFormatPath(layout, LinuxDeb) in Run(fs, InitDebPlan(layout, spec, arch)).fs.dirs
  {
    var f := PackagingFormatPath(layout, LinuxDeb);
    var a, b, c := DebianPath(layout), DebBinPath(layout), DebApplicationsPath(layout);
    var control, wrapper, desktop := DebControlPath(layout), DebWrapperFilePath(layout, spec.name), DebDesktopFilePath(layout, spec.name);
    var mk := [MkdirAll(f)] + [MkdirAll(a)] + [MkdirAll(b)] + [MkdirAll(c)];
    var w1 := WriteFileOps(control, DebControl(spec, arch));
    var w2 := WriteFileOps(wrapper, DebWrapper(spec.name));
    var w3 := WriteFileOps(desktop, DebDesktopEntry(spec));
    var dirs := fs.dirs + Lineage(a) + Lineage(b) + Lineage(c);
    InitDebDirs(fs, layout);
    DebFilesNotDirs(fs, layout, spec.name);
    var s4 := Fs(fs.files, dirs);
    WriteNewFile(s4, control, DebControl(spec, arch));
    var s5 := Fs(s4.files[control := Render(DebControl(spec, arch))], dirs);
    RunThen(fs, mk, w1, s4, s5);
    WriteNewFile(s5, wrapper, DebWrapper(spec.name));
    var s6 := Fs(s5.files[wrapper := Render(DebWrapper(spec.name))], dirs);
    RunThen(fs, mk + w1, w2, s5, s6);
    WriteNewFile(s6, desktop, DebDesktopEntry(spec));
    var s7 := Fs(s6.files[desktop := Render(DebDesktopEntry(spec))], dirs);
    RunThen(fs, mk + w1 + w2, w3, s6, s7);
    assert f == a[..|f|];
  }

  // ---- build ------------------------------------------------------------

  /** When every call of buildLinuxSnap succeeds, snapcraft produced a snap and
      the only lasting change is that snap, under its stable name, in the snap
      output directory: the staging directory is gone again. */
  lemma SnapBuildEffect(fs: Fs, host: Host, layout: Layout, spec: PubSpec, nonce: string, run: PackagerRun)
    requires Valid(fs) && IsDir(fs, layout.snapOutput)
    requires !Exists(fs, TempPath(host, spec.name, LinuxSnap, nonce))
    ensures var r := Run(fs, SnapBuildPlan(host, layout, spec, nonce, run));
      r.Completed? ==>
        run.Produced? && r.fs == Fs(fs.files[SnapOutputPath(host, layout, spec) := run.content], fs.dirs)
  {
    var out := SnapOutputPath(host, layout, spec);
    assert Parent(out) == layout.snapOutput;
    StagedBuildNetEffect(fs, TempPath(host, spec.name, LinuxSnap, nonce), SnapCopies(host, layout, spec, nonce),
                         "snapcraft", [], SnapBuiltName(spec, host.arch), run, out);
  }

  /** When every call of buildLinuxDeb succeeds, dpkg-deb produced a package and
      the only lasting change is that package in the deb output directory. */
  lemma DebBuildEffect(fs: Fs, host: Host, layout: Layout, spec: PubSpec, nonce: string, run: PackagerRun)
    requires Valid(fs) && IsDir(fs, layout.debOutput)
    requires !Exists(fs, TempPath(host, spec.name, LinuxDeb, nonce))
    ensures var r := Run(fs, DebBuildPlan(host, layout, spec, nonce, run));
      r.Completed? ==>
        run.Produced? && r.fs == Fs(fs.files[DebOutputPath(host, layout, spec) := run.content], fs.dirs)
  {
    var out := DebOutputPath(host, layout, spec);
    var name := DebPackageName(spec.name, host.arch);
    assert Parent(out) == layout.debOutput;
    StagedBuildNetEffect(fs, TempPath(host, spec.name, LinuxDeb, nonce), DebCopies(host, layout, spec, nonce),
                         "dpkg-deb", ["--build", ".", name], name, run, out);
  }

  /** A failing buildLinuxSnap: failing to create the staging directory changes
      nothing; any later failure leaves the staging directory behind, since its
      removal is the last call. */
  lemma SnapBuildFailure(fs: Fs, host: Host, layout: Layout, spec: PubSpec, nonce: string, run: PackagerRun)
    ensures var t := TempPath(host, spec.name, LinuxSnap, nonce);
      var r := Run(fs, SnapBuildPlan(host, layout, spec, nonce, run));
      && (r.Stopped? && r.at == 0 ==> r.fs == fs && (Exists(fs, t) || !IsDir(fs, host.tempDir)))
      && (r.Stopped? && r.at > 0 ==> !Exists(fs, t) && t in r.fs.dirs)
  {
    var t := TempPath(host, spec.name, LinuxSnap, nonce);
    assert Parent(t) == host.tempDir;
    StagedBuildFailure(fs, t, SnapCopies(host, layout, spec, nonce),
                       "snapcraft", [], SnapBuiltName(spec, host.arch), run, SnapOutputPath(host, layout, spec));
  }

  /** A failing buildLinuxDeb: the same as for the snap. */
  lemma DebBuildFailure(fs: Fs, host: Host, layout: Layout, spec: PubSpec, nonce: string, run: PackagerRun)
    ensures var t := TempPath(host, spec.name, LinuxDeb, nonce);
      var r := Run(fs, DebBuildPlan(host, layout, spec, nonce, run));
      && (r.Stopped? && r.at == 0 ==> r.fs == fs && (Exists(fs, t) || !IsDir(fs, host.tempDir)))
      && (r.Stopped? && r.at > 0 ==> !Exists(fs, t) && t in r.fs.dirs)
  {
    var t := TempPath(host, spec.name, LinuxDeb, nonce);
    var name := DebPackageName(spec.name, host.arch);
    assert Parent(t) == host.tempDir;
    StagedBuildFailure(fs, t, DebCopies(host, layout, spec, nonce),
                       "dpkg-deb", ["--build", ".", name], name, run, DebOutputPath(host, layout, spec));
  }

  /** buildLinuxDeb hands dpkg-deb the package name it later moves, and moves
      it under that same name; split at '_' the name gives back the stripped
      project name and the architecture. */
  lemma DebBuildNames(host: Host, layout: Layout, spec: PubSpec, nonce: string, run: PackagerRun)
    requires '_' !in host.arch
    ensures var p := DebBuildPlan(host, layout, spec, nonce, run);
      && p[3].RunPackager? && p[4].Rename?
      && p[3].args[2] == Last(p[3].artifact) == Last(p[4].to)
      && p[4].from == p[3].artifact
      && SplitOn(Last(p[4].to), '_') == [RemoveDashesAndUnderscores(spec.name), host.arch + ".deb"]
  {
    var t := TempPath(host, spec.name, LinuxDeb, nonce);
    var name := DebPackageName(spec.name, host.arch);
    assert Last(t + [name]) == name;
    assert Last(DebOutputPath(host, layout, spec)) == name;
  }

  /** buildLinuxSnap moves the snap snapcraft leaves, named
      <stripped name>_<version>_<arch>.snap, to <stripped name>_<arch>.snap: the
      same fields without the version. */
  lemma SnapBuildNames(host: Host, layout: Layout, spec: PubSpec, nonce: string, run: PackagerRun)
    requires '_' !in spec.version && '_' !in host.arch
    ensures var q := SnapBuildPlan(host, layout, spec, nonce, run);
      && q[4].RunPackager? && q[5].Rename?
      && q[5].from == q[4].artifact
      && SplitOn(Last(q[5].from), '_') == [RemoveDashesAndUnderscores(spec.name), spec.version, host.arch + ".snap"]
      && SplitOn(Last(q[5].to), '_') == [RemoveDashesAndUnderscores(spec.name), host.arch + ".snap"]
  {
    var t := TempPath(host, spec.name, LinuxSnap, nonce);
    assert Last(t + [SnapBuiltName(spec, host.arch)]) == SnapBuiltName(spec, host.arch);
    assert Last(SnapOutputPath(host, layout, spec)) == SnapPackageName(spec.name, host.arch);
  }
}
