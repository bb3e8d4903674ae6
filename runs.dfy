/** Running a list of filesystem operations in order, stopping at the first one
    that fails: the shape of every init and build function of
    cmd/packaging.go, where each failing step ends the command. */
module Runs {
  import opened Text
  import opened FileSystem

  /** Either every operation succeeded, or the one at index `at` failed with
      `error` in state `fs`, which is the state all earlier operations left. */
  datatype RunResult = Completed(fs: Fs) | Stopped(fs: Fs, at: nat, error: FsError)

  function Run(fs: Fs, ops: seq<Op>): (r: RunResult)
    ensures r.Stopped? ==> r.at < |ops| && Apply(r.fs, ops[r.at]) == Failed(r.error)
    decreases |ops|
  {
    if ops == [] then Completed(fs)
    else match Apply(fs, ops[0])
      case Failed(e) => Stopped(fs, 0, e)
      case Done(next) =>
        var r := Run(next, ops[1..]);
        if r.Completed? then r else Stopped(r.fs, r.at + 1, r.error)
  }

  /** How many operations were started: all, or those up to the failing one. */
  function Attempted(r: RunResult, ops: seq<Op>): nat
  {
    if r.Completed? then |ops| else r.at + 1
  }

  function Shift(r: RunResult, k: nat): RunResult
  {
    if r.Completed? then r else Stopped(r.fs, r.at + k, r.error)
  }

  /** Running a + b is running a, then, if it completed, b from where a left off. */
  lemma {:induction false} RunConcat(fs: Fs, a: seq<Op>, b: seq<Op>)
    ensures Run(fs, a + b)
         == (var ra := Run(fs, a); if ra.Stopped? then ra else Shift(Run(ra.fs, b), |a|))
    decreases |a|
  {
    if a == [] {
      assert a + b == b;
    } else {
      assert (a + b)[0] == a[0];
      assert (a + b)[1..] == a[1..] + b;
      match Apply(fs, a[0])
      case Failed(e) =>
      case Done(next) => RunConcat(next, a[1..], b);
    }
  }

  /** Once `done` has completed in state s, running `done + seg` ends where
      running `seg` from s ends, reports the same outcome, and has started
      |done| more operations. */
  lemma RunAfter(start: Fs, done: seq<Op>, seg: seq<Op>, s: Fs)
    requires Run(start, done) == Completed(s)
    ensures Run(start, done + seg) == Shift(Run(s, seg), |done|)
    ensures Attempted(Run(start, done + seg), done + seg) == |done| + Attempted(Run(s, seg), seg)
  {
    RunConcat(start, done, seg);
  }

  /** Two runs that complete, one after the other, make one run that completes. */
  lemma RunThen(fs: Fs, a: seq<Op>, b: seq<Op>, mid: Fs, last: Fs)
    requires Run(fs, a) == Completed(mid) && Run(mid, b) == Completed(last)
    ensures Run(fs, a + b) == Completed(last)
  {
    RunConcat(fs, a, b);
  }

  lemma UpdateTwice<K, V>(m: map<K, V>, k: K, a: V, b: V)
    ensures m[k := a][k := b] == m[k := b]
  {
  }

  /** A first call that succeeds, followed by a run of the rest that completes. */
  lemma RunCons(fs: Fs, op: Op, rest: seq<Op>, next: Fs, last: Fs)
    requires Apply(fs, op) == Done(next) && Run(next, rest) == Completed(last)
    ensures Run(fs, [op] + rest) == Completed(last)
  {
    assert ([op] + rest)[0] == op && ([op] + rest)[1..] == rest;
  }

  /** Runs keep the tree well-formed. */
  lemma {:induction false} RunKeepsValid(fs: Fs, ops: seq<Op>)
    requires Valid(fs)
    ensures Valid(Run(fs, ops).fs)
    decreases |ops|
  {
    if ops != [] {
      ApplyKeepsValid(fs, ops[0]);
      if Apply(fs, ops[0]).Done? {
        RunKeepsValid(Apply(fs, ops[0]).fs, ops[1..]);
      }
    }
  }

  /** One WriteString per line, each line followed by a newline. */
  function Writes(p: Path, lines: seq<string>): (ops: seq<Op>)
    ensures |ops| == |lines|
    ensures forall i :: 0 <= i < |lines| ==> ops[i] == Append(p, lines[i] + "\n")
  {
    if lines == [] then [] else [Append(p, lines[0] + "\n")] + Writes(p, lines[1..])
  }

  /** Writing the lines one by one to an open file appends their rendering. */
  lemma {:induction false} WritesEffect(fs: Fs, p: Path, lines: seq<string>)
    requires p in fs.files
    ensures Run(fs, Writes(p, lines))
         == Completed(Fs(fs.files[p := fs.files[p] + Render(lines)], fs.dirs))
    decreases |lines|
  {
    if lines == [] {
      assert fs.files[p] + "" == fs.files[p];
      assert fs.files[p := fs.files[p]] == fs.files;
    } else {
      var text := fs.files[p] + (lines[0] + "\n");
      var next := Fs(fs.files[p := text], fs.dirs);
      assert Writes(p, lines) == [Append(p, lines[0] + "\n")] + Writes(p, lines[1..]);
      WritesEffect(next, p, lines[1..]);
      assert text + Render(lines[1..]) == fs.files[p] + Render(lines);
      assert next.files[p := text + Render(lines[1..])] == fs.files[p := fs.files[p] + Render(lines)];
    }
  }

  /** os.Create, then one WriteString per line, in order. */
  function WriteFileOps(p: Path, lines: seq<string>): (ops: seq<Op>)
    ensures |ops| == |lines| + 1 && ops[0] == Create(p)
    ensures forall i :: 1 <= i < |ops| ==> ops[i] == Append(p, lines[i - 1] + "\n")
  {
    [Create(p)] + Writes(p, lines)
  }

  /** A new file created and then written line by line holds the rendered lines. */
  lemma WriteNewFile(fs: Fs, p: Path, lines: seq<string>)
    requires p != [] && p !in fs.dirs && IsDir(fs, Parent(p))
    ensures Run(fs, WriteFileOps(p, lines))
         == Completed(Fs(fs.files[p := Render(lines)], fs.dirs))
  {
    var created := Fs(fs.files[p := ""], fs.dirs);
    WritesEffect(created, p, lines);
    assert created.files[p] + Render(lines) == Render(lines);
    UpdateTwice(fs.files, p, "", Render(lines));
    RunCons(fs, Create(p), Writes(p, lines), created, Fs(fs.files[p := Render(lines)], fs.dirs));
  }

  // ---- staged builds ------------------------------------------------------

  /** The shape both build functions share: create the staging directory t,
      copy the inputs below it, run the packager in it, move the artifact it
      leaves out of it, and remove it. */
  function StagedBuild(t: Path, copies: seq<Op>, tool: string, args: seq<string>,
                       built: string, run: PackagerRun, out: Path): (plan: seq<Op>)
    ensures |plan| == |copies| + 4 && plan[0] == Mkdir(t) && plan[|plan| - 1] == RemoveAll(t)
    ensures forall i :: 1 <= i <= |copies| ==> plan[i] == copies[i - 1]
    ensures plan[|copies| + 1] == RunPackager(tool, t, args, t + [built], run)
    ensures plan[|copies| + 2] == Rename(t + [built], out)
  {
    [Mkdir(t)] + copies
      + [RunPackager(tool, t, args, t + [built], run), Rename(t + [built], out), RemoveAll(t)]
  }

  /** Every call of `ops` creates a directory or writes a file, at a path at or
      below dir; none removes or moves anything. */
  predicate CreatesOnlyBelow(ops: seq<Op>, dir: Path)
  {
    forall i :: 0 <= i < |ops| ==>
      (ops[i].MkdirAll? || ops[i].Create? || ops[i].Append?) && dir <= ops[i].path
  }

  lemma CreatesOnlyBelowConcat(a: seq<Op>, b: seq<Op>, dir: Path)
    requires CreatesOnlyBelow(a, dir) && CreatesOnlyBelow(b, dir)
    ensures CreatesOnlyBelow(a + b, dir)
  {
    forall i | 0 <= i < |a + b|
      ensures ((a + b)[i].MkdirAll? || (a + b)[i].Create? || (a + b)[i].Append?) && dir <= (a + b)[i].path
    {
      if i < |a| { assert (a + b)[i] == a[i]; } else { assert (a + b)[i] == b[i - |a|]; }
    }
  }

  /** Writing a file at or below dir after calls that stay below dir. */
  lemma WriteFileOpsBelow(ops: seq<Op>, p: Path, lines: seq<string>, dir: Path)
    requires CreatesOnlyBelow(ops, dir) && dir <= p
    ensures CreatesOnlyBelow(ops + WriteFileOps(p, lines), dir)
  {
    CreatesOnlyBelowConcat(ops, WriteFileOps(p, lines), dir);
  }

  /** Every copy of the list writes below t. */
  predicate CopiesInto(copies: seq<Op>, t: Path)
  {
    forall i :: 0 <= i < |copies| ==> copies[i].Copy? && t <= copies[i].dst
  }

  /** Two states that agree outside t prune to the same state. */
  lemma PruneEq(a: Fs, b: Fs, t: Path)
    requires forall q :: !(t <= q) ==> (q in a.files <==> q in b.files)
    requires forall q :: !(t <= q) && q in a.files ==> a.files[q] == b.files[q]
    requires forall q :: !(t <= q) ==> (q in a.dirs <==> q in b.dirs)
    ensures Prune(a, t) == Prune(b, t)
  {
    assert Prune(a, t).files == Prune(b, t).files;
    assert Prune(a, t).dirs == Prune(b, t).dirs;
  }

  lemma PrefixExtends(t: Path, p: Path, x: Path)
    requires t <= p
    ensures t <= p + x
  {
    assert (p + x)[..|t|] == p[..|t|];
  }

  /** The directories on the way down to a path below t that are not below t
      are t's ancestors, which already exist. */
  lemma LineageOutside(fs: Fs, t: Path, p: Path)
    requires Valid(fs) && t in fs.dirs && t <= p
    ensures forall q :: q in Lineage(p) && !(t <= q) ==> q in fs.dirs
  {
    forall q | q in Lineage(p) && !(t <= q)
      ensures q in fs.dirs
    {
      var i :| 1 <= i <= |p| && q == p[..i];
      assert q == t[..i];
      AncestorsAreDirs(fs, t, i);
    }
  }

  /** A copy into a directory below t changes nothing outside t. */
  lemma CopyStaysInside(fs: Fs, t: Path, src: Path, dst: Path)
    requires Valid(fs) && t in fs.dirs && t <= dst
    requires DoCopy(fs, src, dst).Done?
    ensures Prune(DoCopy(fs, src, dst).fs, t) == Prune(fs, t)
  {
    var r := DoCopy(fs, src, dst).fs;
    if src in fs.files {
      assert dst != t;
      assert t <= Parent(dst) by {
        assert Parent(dst)[..|t|] == dst[..|t|];
      }
      LineageOutside(fs, t, Parent(dst));
      assert r == Fs(fs.files[dst := fs.files[src]], fs.dirs + Lineage(Parent(dst)));
      PruneEq(r, fs, t);
    } else {
      LineageOutside(fs, t, dst);
      var cf := CopiedFiles(fs, src, dst);
      var cd := CopiedDirs(fs, src, dst);
      assert r == Fs(fs.files + cf, fs.dirs + Lineage(dst) + cd);
      forall q | q in cf
        ensures t <= q
      {
        var x :| x in fs.files && src <= x && q == Rebase(x, src, dst);
        PrefixExtends(t, dst, x[|src|..]);
      }
      forall q | q in cd
        ensures t <= q
      {
        var x :| x in fs.dirs && src <= x && x != src && q == Rebase(x, src, dst);
        PrefixExtends(t, dst, x[|src|..]);
      }
      PruneEq(r, fs, t);
    }
  }

  /** Copies into t leave the state outside t as it was, and t in place. */
  lemma {:induction false} CopiesStayInside(fs: Fs, t: Path, copies: seq<Op>)
    requires Valid(fs) && t in fs.dirs && CopiesInto(copies, t)
    ensures var r := Run(fs, copies);
      r.Completed? ==> Valid(r.fs) && t in r.fs.dirs && Prune(r.fs, t) == Prune(fs, t)
    decreases |copies|
  {
    if copies != [] {
      var op := copies[0];
      var a := Apply(fs, op);
      if a.Done? {
        ApplyKeepsValid(fs, op);
        CopyStaysInside(fs, t, op.src, op.dst);
        assert CopiesInto(copies[1..], t) by {
          forall i | 0 <= i < |copies[1..]|
            ensures copies[1..][i].Copy? && t <= copies[1..][i].dst
          {
            assert copies[1..][i] == copies[i + 1];
          }
        }
        CopiesStayInside(a.fs, t, copies[1..]);
      }
    }
  }

  lemma PrefixOfLonger(t: Path, q: Path)
    requires t <= q && t != q
    ensures t <= Parent(q)
  {
    assert Parent(q)[..|t|] == q[..|t|];
  }

  /** A destination whose parent already exists is not strictly below a fresh t. */
  lemma OutsideFresh(fs: Fs, t: Path, out: Path)
    requires Valid(fs) && !Exists(fs, t)
    requires out != [] && IsDir(fs, Parent(out))
    ensures t <= out ==> t == out
  {
    FreshSubtree(fs, t);
    if t <= out && t != out {
      PrefixOfLonger(t, out);
    }
  }

  /** The last three steps: the packager writes the artifact into the
      directory t, it is moved to `out` (which the move refuses when it is t
      itself), and t is removed. */
  lemma FinishEffect(s: Fs, t: Path, tool: string, args: seq<string>,
                     built: string, run: PackagerRun, out: Path)
    requires t in s.dirs && (t <= out ==> t == out)
    ensures var r := Run(s, [RunPackager(tool, t, args, t + [built], run), Rename(t + [built], out), RemoveAll(t)]);
      r.Completed? ==>
        (run.Produced? && r.fs == Fs(Prune(s, t).files[out := run.content], Prune(s, t).dirs))
  {
    var artifact := t + [built];
    if Run(s, [RunPackager(tool, t, args, artifact, run), Rename(artifact, out), RemoveAll(t)]).Completed? {
      RunThree(s, RunPackager(tool, t, args, artifact, run), Rename(artifact, out), RemoveAll(t));
      PackagerStep(s, tool, t, args, artifact, run);
      var s3 := Fs(s.files[artifact := run.content], s.dirs);
      RenameStep(s3, artifact, out, t);
      var s4 := Fs((s3.files - {artifact})[out := run.content], s3.dirs);
      RemoveAllStep(s4, t);
      assert artifact[..|t|] == t;
      PruneAfterMove(s, t, artifact, out, run.content);
    }
  }

  /** The three calls that end a staged build, when the run completes. */
  lemma RunThree(s: Fs, a: Op, b: Op, c: Op)
    requires Run(s, [a, b, c]).Completed?
    ensures Apply(s, a).Done? && Apply(Apply(s, a).fs, b).Done?
    ensures Apply(Apply(Apply(s, a).fs, b).fs, c).Done?
    ensures Run(s, [a, b, c]) == Completed(Apply(Apply(Apply(s, a).fs, b).fs, c).fs)
  {
    assert [a, b, c][0] == a && [a, b, c][1..] == [b, c];
    RunHead(s, [a, b, c]);
    var s1 := Apply(s, a).fs;
    assert [b, c][0] == b && [b, c][1..] == [c];
    RunHead(s1, [b, c]);
    var s2 := Apply(s1, b).fs;
    assert [c][0] == c && [c][1..] == [];
    RunHead(s2, [c]);
  }

  lemma PackagerStep(s: Fs, tool: string, t: Path, args: seq<string>, artifact: Path, run: PackagerRun)
    requires Apply(s, RunPackager(tool, t, args, artifact, run)).Done?
    ensures run.Produced?
    ensures Apply(s, RunPackager(tool, t, args, artifact, run)) == Done(Fs(s.files[artifact := run.content], s.dirs))
  {
  }

  lemma RemoveAllStep(s: Fs, t: Path)
    ensures Apply(s, RemoveAll(t)) == Done(Prune(s, t))
  {
  }

  /** Moving the artifact out of a staging directory t that exists. */
  lemma RenameStep(s: Fs, artifact: Path, out: Path, t: Path)
    requires t in s.dirs && Apply(s, Rename(artifact, out)).Done?
    ensures out != t
    ensures Apply(s, Rename(artifact, out)) == Done(Fs((s.files - {artifact})[out := s.files[artifact]], s.dirs))
  {
  }

  /** A completed run started with a call that succeeded. */
  lemma RunHead(fs: Fs, ops: seq<Op>)
    requires ops != [] && Run(fs, ops).Completed?
    ensures Apply(fs, ops[0]).Done? && Run(Apply(fs, ops[0]).fs, ops[1..]) == Run(fs, ops)
  {
  }

  /** Moving a file from inside t to outside it, then removing t, leaves what
      removing t leaves plus the moved content. */
  lemma PruneAfterMove(s: Fs, t: Path, artifact: Path, out: Path, c: string)
    requires t <= artifact && !(t <= out)
    ensures Prune(Fs((s.files[artifact := c] - {artifact})[out := c], s.dirs), t)
         == Fs(Prune(s, t).files[out := c], Prune(s, t).dirs)
  {
    var a := Prune(Fs((s.files[artifact := c] - {artifact})[out := c], s.dirs), t).files;
    var b := Prune(s, t).files[out := c];
    assert a.Keys == b.Keys;
  }

  /** A build that completes has, in the end, put the artifact's content at
      `out` and changed nothing else: every staged file and the staging
      directory itself are gone. */
  lemma StagedBuildNetEffect(fs: Fs, t: Path, copies: seq<Op>, tool: string, args: seq<string>,
                             built: string, run: PackagerRun, out: Path)
    requires Valid(fs) && !Exists(fs, t) && CopiesInto(copies, t)
    requires out != [] && IsDir(fs, Parent(out))
    ensures var r := Run(fs, StagedBuild(t, copies, tool, args, built, run, out));
      r.Completed? ==> run.Produced? && r.fs == Fs(fs.files[out := run.content], fs.dirs)
  {
    var tail := [RunPackager(tool, t, args, t + [built], run), Rename(t + [built], out), RemoveAll(t)];
    var plan := StagedBuild(t, copies, tool, args, built, run, out);
    assert plan == [Mkdir(t)] + (copies + tail);
    RunConcat(fs, [Mkdir(t)], copies + tail);
    var r := Run(fs, plan);
    if r.Completed? {
      var s1 := Fs(fs.files, fs.dirs + {t});
      assert Run(fs, [Mkdir(t)]) == Completed(s1);
      ApplyKeepsValid(fs, Mkdir(t));
      FreshSubtree(fs, t);
      PruneEq(s1, fs, t);
      PruneFresh(fs, t);
      RunConcat(s1, copies, tail);
      CopiesStayInside(s1, t, copies);
      var s2 := Run(s1, copies).fs;
      OutsideFresh(fs, t, out);
      FinishEffect(s2, t, tool, args, built, run, out);
    }
  }

  /** A run that stopped left the state that running the operations before the
      failing one leaves. */
  lemma {:induction false} RunStoppedPrefix(fs: Fs, ops: seq<Op>)
    requires Run(fs, ops).Stopped?
    ensures Run(fs, ops[..Run(fs, ops).at]) == Completed(Run(fs, ops).fs)
    decreases |ops|
  {
    var r := Run(fs, ops);
    if r.at == 0 {
      assert ops[..0] == [];
    } else {
      var next := Apply(fs, ops[0]).fs;
      RunStoppedPrefix(next, ops[1..]);
      var pre := ops[..r.at];
      assert pre[0] == ops[0];
      assert pre[1..] == ops[1..][..r.at - 1];
    }
  }

  /** Apart from RemoveAll, no operation removes a directory. */
  lemma {:induction false} RunGrowsDirs(fs: Fs, ops: seq<Op>)
    requires forall i :: 0 <= i < |ops| ==> !ops[i].RemoveAll?
    ensures fs.dirs <= Run(fs, ops).fs.dirs
    decreases |ops|
  {
    if ops != [] && Apply(fs, ops[0]).Done? {
      RunGrowsDirs(Apply(fs, ops[0]).fs, ops[1..]);
    }
  }

  /** A build that fails leaves the state as it was if it fails creating the
      staging directory, and otherwise leaves the staging directory behind:
      no step after the creation removes it, and the final removal cannot fail. */
  lemma StagedBuildFailure(fs: Fs, t: Path, copies: seq<Op>, tool: string, args: seq<string>,
                           built: string, run: PackagerRun, out: Path)
    requires CopiesInto(copies, t)
    ensures var r := Run(fs, StagedBuild(t, copies, tool, args, built, run, out));
      && (r.Stopped? && r.at == 0 ==> r.fs == fs && (Exists(fs, t) || !IsDir(fs, Parent(t))))
      && (r.Stopped? && r.at > 0 ==> !Exists(fs, t) && t in r.fs.dirs && r.at < |copies| + 3)
  {
    var plan := StagedBuild(t, copies, tool, args, built, run, out);
    var r := Run(fs, plan);
    StagedBuildShape(t, copies, tool, args, built, run, out);
    if r.Stopped? && r.at == 0 {
      RunStoppedFirst(fs, plan);
    } else if r.Stopped? {
      assert Apply(r.fs, plan[|plan| - 1]).Done?;
      StoppedAfterMkdir(fs, t, plan);
    }
  }

  /** A staged build creates t first, removes it last and nowhere else. */
  lemma StagedBuildShape(t: Path, copies: seq<Op>, tool: string, args: seq<string>,
                         built: string, run: PackagerRun, out: Path)
    requires CopiesInto(copies, t)
    ensures var plan := StagedBuild(t, copies, tool, args, built, run, out);
      && |plan| == |copies| + 4 && plan[0] == Mkdir(t) && plan[|plan| - 1] == RemoveAll(t)
      && forall i :: 0 < i < |plan| - 1 ==> !plan[i].RemoveAll?
  {
    var plan := StagedBuild(t, copies, tool, args, built, run, out);
    forall i | 0 < i < |plan| - 1
      ensures !plan[i].RemoveAll?
    {
      if i <= |copies| { assert plan[i] == copies[i - 1]; }
    }
  }

  /** A run whose first call fails leaves the state it started from. */
  lemma RunStoppedFirst(fs: Fs, ops: seq<Op>)
    requires Run(fs, ops).Stopped? && Run(fs, ops).at == 0
    ensures Run(fs, ops).fs == fs && Apply(fs, ops[0]).Failed?
  {
  }

  /** A run that begins by creating t and fails later, with no RemoveAll
      before the failing call, found nothing at t and leaves t behind. */
  lemma StoppedAfterMkdir(fs: Fs, t: Path, plan: seq<Op>)
    requires |plan| > 0 && plan[0] == Mkdir(t)
    requires Run(fs, plan).Stopped? && Run(fs, plan).at > 0
    requires forall i :: 0 < i < Run(fs, plan).at ==> !plan[i].RemoveAll?
    ensures !Exists(fs, t) && t in Run(fs, plan).fs.dirs
  {
    var r := Run(fs, plan);
    RunStoppedPrefix(fs, plan);
    var pre := plan[..r.at];
    assert pre == [Mkdir(t)] + pre[1..];
    RunConcat(fs, [Mkdir(t)], pre[1..]);
    assert Apply(fs, Mkdir(t)).Done?;
    var s1 := Fs(fs.files, fs.dirs + {t});
    forall i | 0 <= i < |pre[1..]|
      ensures !pre[1..][i].RemoveAll?
    {
      assert pre[1..][i] == plan[i + 1];
    }
    RunGrowsDirs(s1, pre[1..]);
  }
}
