/** The text files that packaging init writes and the artifact names that
    packaging build uses (cmd/packaging.go, initLinuxSnap, initLinuxDeb,
    buildLinuxSnap, buildLinuxDeb). Every file is a fixed list of lines built
    from the project metadata; the file's text is the list rendered with a
    newline after each line. */
module Templates {
  import opened Text
  import opened Names

  /** The project metadata read from pubspec.yaml. */
  datatype PubSpec = PubSpec(name: string, version: string, author: string, description: string)

  /** The native libraries both Linux formats depend on, in this order. */
  const LinuxPackagingDependencies: seq<string> :=
    ["libx11-6", "libxrandr2", "libxcursor1", "libxinerama1"]

  // ---- snap -------------------------------------------------------------

  /** Where init puts the desktop entry, relative to the `snap` directory. */
  function SnapDesktopPath(projectName: string): seq<string>
  {
    ["local", projectName + ".desktop"]
  }

  /** The fixed part of snapcraft.yaml, before the stage-packages items: the
      snap and its one app are named after the stripped name, the version is
      quoted, the app runs the binary named after the project, and the list
      of stage-packages is opened last. */
  function SnapcraftHeader(spec: PubSpec): (h: seq<string>)
    ensures |h| == 23
    ensures h[0] == "name: " + RemoveDashesAndUnderscores(spec.name)
    ensures h[2] == "version: '" + spec.version + "'"
    ensures h[9] == "  " + RemoveDashesAndUnderscores(spec.name) + ":"
    ensures h[10] == "    command: " + spec.name
    ensures h[22] == "    stage-packages:"
  {
    var stripped := RemoveDashesAndUnderscores(spec.name);
    [ "name: " + stripped,
      "base: core18",
      "version: '" + spec.version + "'",
      "summary: " + spec.description,
      "description: |",
      "  " + spec.description,
      "confinement: devmode",
      "grade: devel",
      "apps:",
      "  " + stripped + ":",
      "    command: " + spec.name,
      "    desktop: local/" + spec.name + ".desktop",
      "parts:",
      "  desktop:",
      "    plugin: dump",
      "    source: snap",
      "  assets:",
      "    plugin: dump",
      "    source: assets",
      "  app:",
      "    plugin: dump",
      "    source: build",
      "    stage-packages:" ]
  }

  /** One YAML list item per dependency, in list order. */
  function DependencyItems(deps: seq<string>): (items: seq<string>)
    ensures |items| == |deps|
    ensures forall i :: 0 <= i < |deps| ==> items[i] == "      - " + deps[i]
  {
    seq(|deps|, i requires 0 <= i < |deps| => "      - " + deps[i])
  }

  /** The lines of snap/snapcraft.yaml: the header, then one stage-packages
      item per dependency, in order. */
  function SnapcraftManifest(spec: PubSpec): (m: seq<string>)
    ensures |m| == 23 + |LinuxPackagingDependencies|
    ensures m[..23] == SnapcraftHeader(spec)
    ensures forall i :: 0 <= i < |LinuxPackagingDependencies| ==>
              m[23 + i] == "      - " + LinuxPackagingDependencies[i]
  {
    SnapcraftHeader(spec) + DependencyItems(LinuxPackagingDependencies)
  }

  /** The snapcraft.yaml line list as initLinuxSnap grows it: the fixed lines,
      then one item appended per dependency. */
  method SnapcraftFileContent(spec: PubSpec) returns (lines: seq<string>)
    ensures lines == SnapcraftManifest(spec)
  {
    var deps := LinuxPackagingDependencies;
    lines := SnapcraftHeader(spec);
    for i := 0 to |deps|
      invariant lines == SnapcraftHeader(spec) + DependencyItems(deps[..i])
    {
      assert DependencyItems(deps[..i + 1]) == DependencyItems(deps[..i]) + ["      - " + deps[i]];
      lines := lines + ["      - " + deps[i]];
    }
    assert deps[..|deps|] == deps;
  }

  /** The lines of snap/local/<name>.desktop: an application entry that runs
      and is titled after the project name. */
  function SnapDesktopEntry(spec: PubSpec): (e: seq<string>)
    ensures |e| == 8 && e[0] == "[Desktop Entry]" && e[3] == "Type=Application"
    ensures e[5] == "Exec=/" + spec.name && e[6] == "Name=" + spec.name
  {
    [ "[Desktop Entry]",
      "Encoding=UTF-8",
      "Version=" + spec.version,
      "Type=Application",
      "Terminal=false",
      "Exec=/" + spec.name,
      "Name=" + spec.name,
      "Icon=/icon.png" ]
  }

  // ---- deb --------------------------------------------------------------

  /** The lines of DEBIAN/control. The package is the stripped name and the
      maintainer is the pubspec author, even when that is empty. */
  function DebControl(spec: PubSpec, arch: string): (c: seq<string>)
    ensures |c| == 7
    ensures c[0] == "Package: " + RemoveDashesAndUnderscores(spec.name)
    ensures c[1] == "Architecture: " + arch
    ensures c[2] == "Maintainer: @" + spec.author
    ensures c[4] == "Version: " + spec.version
  {
    [ "Package: " + RemoveDashesAndUnderscores(spec.name),
      "Architecture: " + arch,
      "Maintainer: @" + spec.author,
      "Priority: optional",
      "Version: " + spec.version,
      "Description: " + spec.description,
      "Depends: " + JoinWith(LinuxPackagingDependencies, ',') ]
  }

  /** Where init puts the launcher script, relative to the format directory. */
  function DebWrapperPath(projectName: string): seq<string>
  {
    ["usr", "bin", RemoveDashesAndUnderscores(projectName)]
  }

  /** Where build puts the compiled application, relative to the staging root. */
  function DebLibPath(projectName: string): seq<string>
  {
    ["usr", "lib", projectName]
  }

  /** The lines of usr/bin/<stripped name>: a shell script whose one command
      is <name> inside usr/lib/<name>, the directory build copies the compiled
      application into. */
  function DebWrapper(projectName: string): (w: seq<string>)
    ensures |w| == 2 && w[0] == "#!/bin/sh"
    ensures w[1] == "/" + JoinWith(DebLibPath(projectName) + [projectName], '/')
  {
    var p := DebLibPath(projectName) + [projectName];
    assert p == ["usr", "lib", projectName, projectName];
    JoinWith4(p, '/');
    assert "/usr/lib/" == "/" + "usr" + ['/'] + "lib" + ['/'];
    [ "#!/bin/sh",
      "/usr/lib/" + projectName + "/" + projectName ]
  }

  /** The lines of usr/share/applications/<name>.desktop: an application entry
      that runs /usr/bin/<name> and takes its icon from the assets copied
      under usr/lib/<name>. */
  function DebDesktopEntry(spec: PubSpec): (e: seq<string>)
    ensures |e| == 8 && e[0] == "[Desktop Entry]" && e[3] == "Type=Application"
    ensures e[5] == "Exec=/usr/bin/" + spec.name && e[6] == "Name=" + spec.name
    ensures e[7] == "Icon=/" + JoinWith(DebLibPath(spec.name) + ["assets", "icon.png"], '/')
  {
    DebIconLine(spec.name);
    [ "[Desktop Entry]",
      "Encoding=UTF-8",
      "Version=" + spec.version,
      "Type=Application",
      "Terminal=false",
      "Exec=/usr/bin/" + spec.name,
      "Name=" + spec.name,
      "Icon=/usr/lib/" + spec.name + "/assets/icon.png" ]
  }

  // ---- artifact names ---------------------------------------------------

  /** The file buildLinuxSnap expects snapcraft to leave in the staging
      directory. Split at '_', it gives back the stripped name, the version
      and the architecture, when neither of the last two holds a '_'. */
  function SnapBuiltName(spec: PubSpec, arch: string): (n: string)
    ensures '_' !in spec.version && '_' !in arch ==>
      SplitOn(n, '_') == [RemoveDashesAndUnderscores(spec.name), spec.version, arch + ".snap"]
  {
    var parts := [RemoveDashesAndUnderscores(spec.name), spec.version, arch + ".snap"];
    JoinWith3(parts, '_');
    if '_' !in spec.version && '_' !in arch then
      assert '_' !in arch + ".snap";
      SplitJoin(parts, '_');
      JoinWith(parts, '_')
    else
      JoinWith(parts, '_')
  }

  /** snapcraft names the snap after the name and version lines of the
      snapcraft.yaml written when the project was initialised, while the build
      expects the name computed from the pubspec at build time: the two names
      agree exactly when those two lines would be written the same at both
      times, so a version bump after init leaves the expected file missing. */
  lemma SnapBuiltNameAcrossVersions(atInit: PubSpec, atBuild: PubSpec, arch: string)
    requires '_' !in atInit.version && '_' !in atBuild.version && '_' !in arch
    ensures SnapBuiltName(atBuild, arch) == SnapBuiltName(atInit, arch)
        <==> SnapcraftHeader(atBuild)[0] == SnapcraftHeader(atInit)[0]
             && SnapcraftHeader(atBuild)[2] == SnapcraftHeader(atInit)[2]
  {
    var sI := RemoveDashesAndUnderscores(atInit.name);
    var sB := RemoveDashesAndUnderscores(atBuild.name);
    CancelPrefix("name: ", sB, sI);
    CancelSuffix("version: '" + atBuild.version, "version: '" + atInit.version, "'");
    CancelPrefix("version: '", atBuild.version, atInit.version);
    if SnapBuiltName(atBuild, arch) == SnapBuiltName(atInit, arch) {
      var fB := SplitOn(SnapBuiltName(atBuild, arch), '_');
      assert fB[0] == sB && fB[1] == atBuild.version;
    }
  }

  /** The name of a package file: the stripped project name and the
      architecture joined by '_', followed by the extension. Split at '_', it
      gives back the stripped name and <arch><ext>. */
  function PackageFileName(projectName: string, arch: string, ext: string): (n: string)
    ensures '_' !in arch && '_' !in ext ==>
      SplitOn(n, '_') == [RemoveDashesAndUnderscores(projectName), arch + ext]
  {
    var parts := [RemoveDashesAndUnderscores(projectName), arch + ext];
    if '_' !in arch && '_' !in ext then
      assert '_' !in arch + ext;
      SplitJoin(parts, '_');
      JoinWith(parts, '_')
    else
      JoinWith(parts, '_')
  }

  /** The stable name the snap is moved to. */
  function SnapPackageName(projectName: string, arch: string): string
  {
    PackageFileName(projectName, arch, ".snap")
  }

  /** The name given to dpkg-deb and the name the deb is moved to. */
  function DebPackageName(projectName: string, arch: string): string
  {
    PackageFileName(projectName, arch, ".deb")
  }

  // ---- properties -------------------------------------------------------

  lemma JoinWith3(p: seq<string>, sep: char)
    requires |p| == 3
    ensures JoinWith(p, sep) == p[0] + [sep] + p[1] + [sep] + p[2]
  {
    assert p[1..][1..] == [p[2]];
    assert JoinWith(p[1..], sep) == p[1] + [sep] + p[2];
  }

  lemma JoinWith4(p: seq<string>, sep: char)
    requires |p| == 4
    ensures JoinWith(p, sep) == p[0] + [sep] + p[1] + [sep] + p[2] + [sep] + p[3]
  {
    JoinWith3(p[1..], sep);
  }

  lemma JoinWith5(p: seq<string>, sep: char)
    requires |p| == 5
    ensures JoinWith(p, sep) == p[0] + [sep] + p[1] + [sep] + p[2] + [sep] + p[3] + [sep] + p[4]
  {
    JoinWith4(p[1..], sep);
  }

  /** The icon line names the icon under the copied library directory. */
  lemma DebIconLine(name: string)
    ensures "Icon=/usr/lib/" + name + "/assets/icon.png"
         == "Icon=/" + JoinWith(DebLibPath(name) + ["assets", "icon.png"], '/')
  {
    var p := DebLibPath(name) + ["assets", "icon.png"];
    JoinWith5(p, '/');
    var j := "usr" + ['/'] + "lib" + ['/'] + name + ['/'] + "assets" + ['/'] + "icon.png";
    assert JoinWith(p, '/') == j;
    assert "Icon=/" + j == ("Icon=/" + "usr" + ['/'] + "lib" + ['/']) + name + (['/'] + "assets" + ['/'] + "icon.png");
    assert "Icon=/usr/lib/" == "Icon=/" + "usr" + ['/'] + "lib" + ['/'];
    assert "/assets/icon.png" == ['/'] + "assets" + ['/'] + "icon.png";
  }

  /** The manifest's desktop entry names, relative to the `snap` directory,
      the very file init creates for it. */
  lemma SnapDesktopReference(spec: PubSpec)
    ensures SnapcraftManifest(spec)[11] == "    desktop: " + JoinWith(SnapDesktopPath(spec.name), '/')
  {
    assert SnapDesktopPath(spec.name)[1..] == [spec.name + ".desktop"];
  }

  /** The control file's last line is the Depends field, whose value splits
      at ',' back into the dependency list. */
  lemma DebControlShape(spec: PubSpec, arch: string)
    ensures var c := DebControl(spec, arch);
      && |c[6]| >= 9 && c[6][..9] == "Depends: "
      && SplitOn(c[6][9..], ',') == LinuxPackagingDependencies
  {
    var deps := LinuxPackagingDependencies;
    var c := DebControl(spec, arch);
    assert c[6][9..] == JoinWith(deps, ',');
    assert forall i :: 0 <= i < |deps| ==> ',' !in deps[i] by {
      assert ',' !in deps[0] && ',' !in deps[1] && ',' !in deps[2] && ',' !in deps[3];
    }
    SplitJoin(deps, ',');
  }

  /** The deb desktop entry's Exec line names the launcher init creates exactly
      when the project name has no '-' or '_': the launcher file is named after
      the stripped name, the Exec line after the name itself. */
  lemma DebDesktopExecNamesWrapper(spec: PubSpec)
    ensures DebDesktopEntry(spec)[5] == "Exec=/" + JoinWith(DebWrapperPath(spec.name), '/')
        <==> ('-' !in spec.name && '_' !in spec.name)
  {
    WrapperExecLine(spec.name);
    StripFixedPoint(spec.name);
    CancelPrefix("Exec=/usr/bin/", spec.name, RemoveDashesAndUnderscores(spec.name));
  }

  /** The deb desktop entry with its Exec line pointing at the launcher init
      writes, usr/bin/<stripped name>, and every other line as written. */
  function CorrectedDebDesktopEntry(spec: PubSpec): (e: seq<string>)
    ensures |e| == 8 && e[5] == "Exec=/" + JoinWith(DebWrapperPath(spec.name), '/')
    ensures forall i :: 0 <= i < 8 && i != 5 ==> e[i] == DebDesktopEntry(spec)[i]
  {
    WrapperExecLine(spec.name);
    DebDesktopEntry(spec)[5 := "Exec=/usr/bin/" + RemoveDashesAndUnderscores(spec.name)]
  }

  /** The corrected entry differs from the one init writes exactly when the
      project name holds a '-' or a '_'. */
  lemma CorrectedDebDesktopEntryAgrees(spec: PubSpec)
    ensures CorrectedDebDesktopEntry(spec) == DebDesktopEntry(spec)
        <==> ('-' !in spec.name && '_' !in spec.name)
  {
    DebDesktopExecNamesWrapper(spec);
    var c := CorrectedDebDesktopEntry(spec);
    var d := DebDesktopEntry(spec);
    if '-' !in spec.name && '_' !in spec.name {
      assert forall i :: 0 <= i < 8 ==> c[i] == d[i];
    } else {
      assert c[5] != d[5];
    }
  }

  /** The Exec line naming the launcher. */
  lemma WrapperExecLine(projectName: string)
    ensures "Exec=/" + JoinWith(DebWrapperPath(projectName), '/')
         == "Exec=/usr/bin/" + RemoveDashesAndUnderscores(projectName)
  {
    var w := DebWrapperPath(projectName);
    JoinWith3(w, '/');
    assert "usr/bin/" == "usr" + ['/'] + "bin" + ['/'];
  }

  lemma CancelSuffix<T>(x: seq<T>, y: seq<T>, a: seq<T>)
    ensures x + a == y + a <==> x == y
  {
    if x + a == y + a {
      assert (x + a)[..|x|] == x && (y + a)[..|y|] == y;
    }
  }

  lemma CancelPrefix<T>(a: seq<T>, x: seq<T>, y: seq<T>)
    ensures a + x == a + y <==> x == y
  {
    if a + x == a + y {
      assert (a + x)[|a|..] == x && (a + y)[|a|..] == y;
    }
  }
}
