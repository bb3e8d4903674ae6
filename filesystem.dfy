/** An abstract filesystem: a map from file paths to contents and a set of
    directory paths, with the operations the packaging code performs on it
    (os.MkdirAll, os.Mkdir as used by ioutil.TempDir, os.Create, File.WriteString,
    copy.Copy, the packager's child process, os.Rename, os.RemoveAll).
    A path is its list of components; the root is the empty path, a directory
    that is never listed. Every operation either fails, changing nothing, or
    yields the next state. */
module FileSystem {

  type Path = seq<string>

  datatype Fs = Fs(files: map<Path, string>, dirs: set<Path>)

  function Parent(p: Path): Path
    requires p != []
  {
    p[..|p| - 1]
  }

  predicate IsDir(fs: Fs, p: Path)
  {
    p == [] || p in fs.dirs
  }

  predicate Exists(fs: Fs, p: Path)
  {
    p == [] || p in fs.dirs || p in fs.files
  }

  /** os.Stat(p) fails with an error os.IsNotExist accepts: nothing is at p
      and no file stands on the way down to it (a file there makes the lookup
      fail with "not a directory", which is a different error). */
  predicate StatNotExist(fs: Fs, p: Path)
  {
    !Exists(fs, p) && forall i :: 1 <= i < |p| ==> p[..i] !in fs.files
  }

  /** A well-formed tree: nothing is both a file and a directory, and the
      parent of every entry is a directory. */
  ghost predicate Valid(fs: Fs)
  {
    && (forall p :: p in fs.files ==> p != [] && p !in fs.dirs && IsDir(fs, Parent(p)))
    && (forall p :: p in fs.dirs ==> p != [] && IsDir(fs, Parent(p)))
  }

  /** The non-root directories on the way down to p, p included. */
  function Lineage(p: Path): set<Path>
  {
    set i | 1 <= i <= |p| :: p[..i]
  }

  /** Where the entry at p, inside src, lands when src is copied to dst. */
  function Rebase(p: Path, src: Path, dst: Path): Path
    requires src <= p
  {
    dst + p[|src|..]
  }

  /** The state with every entry at or below p removed. */
  function Prune(fs: Fs, p: Path): Fs
  {
    Fs(map q | q in fs.files && !(p <= q) :: fs.files[q],
       set q | q in fs.dirs && !(p <= q))
  }

  /** What the external packager does: crash, or leave a file with this content. */
  datatype PackagerRun = Crashed | Produced(content: string)

  datatype Op =
    | MkdirAll(path: Path)
    | Mkdir(path: Path)
    | Create(path: Path)
    | Append(path: Path, text: string)
    | Copy(src: Path, dst: Path)
    | RunPackager(tool: string, dir: Path, args: seq<string>, artifact: Path, run: PackagerRun)
    | Rename(from: Path, to: Path)
    | RemoveAll(path: Path)

  datatype FsError =
    | NotFound(path: Path)
    | AlreadyExists(path: Path)
    | NotADirectory(path: Path)
    | IsADirectory(path: Path)
    | PackagerFailed(tool: string)

  datatype Outcome = Done(fs: Fs) | Failed(error: FsError)

  // ---- single operations ----------------------------------------------

  /** os.MkdirAll: fails when a file stands anywhere on the way down to p. */
  function DoMkdirAll(fs: Fs, p: Path): (r: Outcome)
    ensures r.Failed? <==> exists i :: 1 <= i <= |p| && p[..i] in fs.files
    ensures r.Done? ==> IsDir(r.fs, p) && r.fs.files == fs.files && fs.dirs <= r.fs.dirs
  {
    assert forall i :: 1 <= i <= |p| ==> p[..i] in Lineage(p);
    assert p != [] ==> p[..|p|] == p;
    if Lineage(p) * fs.files.Keys != {} then Failed(NotADirectory(p))
    else
      assert forall i :: 1 <= i <= |p| ==> p[..i] !in fs.files by {
        forall i | 1 <= i <= |p| ensures p[..i] !in fs.files {
          assert p[..i] in Lineage(p);
          assert p[..i] !in Lineage(p) * fs.files.Keys;
        }
      }
      Done(Fs(fs.files, fs.dirs + Lineage(p)))
  }

  /** os.Mkdir: p must not exist and its parent must be a directory. */
  function DoMkdir(fs: Fs, p: Path): (r: Outcome)
    ensures r.Done? <==> !Exists(fs, p) && IsDir(fs, Parent(p))
    ensures r.Done? ==> r.fs == Fs(fs.files, fs.dirs + {p})
  {
    if Exists(fs, p) then Failed(AlreadyExists(p))
    else if !IsDir(fs, Parent(p)) then Failed(NotFound(Parent(p)))
    else Done(Fs(fs.files, fs.dirs + {p}))
  }

  /** os.Create: an empty file at p, truncating one that is there. */
  function DoCreate(fs: Fs, p: Path): (r: Outcome)
    ensures r.Done? <==> p != [] && p !in fs.dirs && IsDir(fs, Parent(p))
    ensures r.Done? ==> p in r.fs.files && r.fs.files[p] == "" && r.fs.dirs == fs.dirs
    ensures r.Done? ==> forall q :: q != p ==> (q in r.fs.files <==> q in fs.files)
  {
    if p == [] || p in fs.dirs then Failed(IsADirectory(p))
    else if !IsDir(fs, Parent(p)) then Failed(NotFound(Parent(p)))
    else Done(Fs(fs.files[p := ""], fs.dirs))
  }

  /** File.WriteString on the open file p: the text goes after what is there. */
  function DoAppend(fs: Fs, p: Path, text: string): (r: Outcome)
    ensures r.Done? <==> p in fs.files
    ensures r.Done? ==> p in r.fs.files && r.fs.files[p] == fs.files[p] + text && r.fs.dirs == fs.dirs
  {
    if p !in fs.files then Failed(NotFound(p))
    else Done(Fs(fs.files[p := fs.files[p] + text], fs.dirs))
  }

  /** The entries strictly inside src, moved to dst. */
  function CopiedDirs(fs: Fs, src: Path, dst: Path): set<Path>
  {
    set q | q in fs.dirs && src <= q && q != src :: Rebase(q, src, dst)
  }

  lemma RebaseInjective(src: Path, dst: Path)
    ensures forall a, b :: src <= a && src <= b && Rebase(a, src, dst) == Rebase(b, src, dst) ==> a == b
  {
    forall a, b | src <= a && src <= b && Rebase(a, src, dst) == Rebase(b, src, dst)
      ensures a == b
    {
      assert a[|src|..] == Rebase(a, src, dst)[|dst|..];
      assert b[|src|..] == Rebase(b, src, dst)[|dst|..];
      assert a == src + a[|src|..] && b == src + b[|src|..];
    }
  }

  function CopiedFiles(fs: Fs, src: Path, dst: Path): map<Path, string>
  {
    RebaseInjective(src, dst);
    map q | q in fs.files && src <= q :: Rebase(q, src, dst) := fs.files[q]
  }

  /** copy.Copy: a file is copied to dst; a directory is merged into dst,
      which is created with its parents, each file overwriting any at its target. */
  function DoCopy(fs: Fs, src: Path, dst: Path): (r: Outcome)
    ensures !Exists(fs, src) ==> r == Failed(NotFound(src))
    ensures r.Done? ==> fs.dirs <= r.fs.dirs && (IsDir(r.fs, dst) || dst in r.fs.files)
  {
    if !Exists(fs, src) then Failed(NotFound(src))
    else if src in fs.files then
      if dst == [] || dst in fs.dirs then Failed(IsADirectory(dst))
      else if Lineage(Parent(dst)) * fs.files.Keys != {} then Failed(NotADirectory(Parent(dst)))
      else Done(Fs(fs.files[dst := fs.files[src]], fs.dirs + Lineage(Parent(dst))))
    else
      var newDirs := Lineage(dst) + CopiedDirs(fs, src, dst);
      var newFiles := CopiedFiles(fs, src, dst);
      if newDirs * fs.files.Keys != {} then Failed(NotADirectory(dst))
      else if newFiles.Keys * (fs.dirs + newDirs) != {} then Failed(IsADirectory(dst))
      else
        assert dst != [] ==> dst[..|dst|] == dst;
        Done(Fs(fs.files + newFiles, fs.dirs + newDirs))
  }

  /** The packager runs in dir and, unless it crashes, leaves its artifact. */
  function DoRunPackager(fs: Fs, tool: string, dir: Path, artifact: Path, run: PackagerRun): (r: Outcome)
    ensures r.Done? <==> run.Produced? && IsDir(fs, dir)
                         && artifact != [] && artifact !in fs.dirs && IsDir(fs, Parent(artifact))
    ensures r.Done? ==> artifact in r.fs.files && r.fs.files[artifact] == run.content && r.fs.dirs == fs.dirs
  {
    if !IsDir(fs, dir) then Failed(NotFound(dir))
    else if run.Crashed? then Failed(PackagerFailed(tool))
    else if artifact == [] || artifact in fs.dirs || !IsDir(fs, Parent(artifact)) then Failed(PackagerFailed(tool))
    else Done(Fs(fs.files[artifact := run.content], fs.dirs))
  }

  /** os.Rename of a file: the content moves from `from` to `to`. */
  function DoRename(fs: Fs, from: Path, to: Path): (r: Outcome)
    ensures r.Done? <==> from in fs.files && to != [] && to !in fs.dirs && IsDir(fs, Parent(to))
    ensures r.Done? ==> to in r.fs.files && r.fs.files[to] == fs.files[from] && r.fs.dirs == fs.dirs
    ensures r.Done? && from != to ==> from !in r.fs.files
  {
    if from !in fs.files then Failed(NotFound(from))
    else if to == [] || to in fs.dirs then Failed(IsADirectory(to))
    else if !IsDir(fs, Parent(to)) then Failed(NotFound(Parent(to)))
    else Done(Fs((fs.files - {from})[to := fs.files[from]], fs.dirs))
  }

  /** os.RemoveAll: p and everything below it disappear; nothing else changes. */
  function DoRemoveAll(fs: Fs, p: Path): (r: Outcome)
    ensures r.Done?
    ensures forall q :: p <= q ==> q !in r.fs.files && q !in r.fs.dirs
    ensures forall q :: !(p <= q) ==> (q in r.fs.dirs <==> q in fs.dirs)
    ensures forall q :: !(p <= q) && q in fs.files ==> q in r.fs.files && r.fs.files[q] == fs.files[q]
  {
    Done(Prune(fs, p))
  }

  function Apply(fs: Fs, op: Op): Outcome
  {
    match op
    case MkdirAll(p) => DoMkdirAll(fs, p)
    case Mkdir(p) => DoMkdir(fs, p)
    case Create(p) => DoCreate(fs, p)
    case Append(p, text) => DoAppend(fs, p, text)
    case Copy(src, dst) => DoCopy(fs, src, dst)
    case RunPackager(tool, dir, _, artifact, run) => DoRunPackager(fs, tool, dir, artifact, run)
    case Rename(from, to) => DoRename(fs, from, to)
    case RemoveAll(p) => DoRemoveAll(fs, p)
  }

  // ---- well-formedness --------------------------------------------------

  /** Every proper prefix of an existing entry is a directory. */
  lemma {:induction false} AncestorsAreDirs(fs: Fs, q: Path, i: nat)
    requires Valid(fs)
    requires q in fs.files || q in fs.dirs
    requires i < |q|
    ensures IsDir(fs, q[..i])
    decreases |q|
  {
    if i < |q| - 1 {
      var up := Parent(q);
      assert up in fs.dirs;
      assert up[..i] == q[..i];
      AncestorsAreDirs(fs, up, i);
    }
  }

  /** Where os.Stat reports that nothing exists, os.MkdirAll succeeds and adds
      exactly the directories on the way down. */
  lemma StatNotExistMkdirAll(fs: Fs, p: Path)
    requires StatNotExist(fs, p)
    ensures forall i :: 1 <= i <= |p| ==> p[..i] !in fs.files
    ensures DoMkdirAll(fs, p) == Done(Fs(fs.files, fs.dirs + Lineage(p)))
  {
    assert p[..|p|] == p;
  }

  /** In a well-formed tree, os.Stat reports not-exist exactly when nothing is
      at p and os.MkdirAll could create it. */
  lemma StatNotExistIff(fs: Fs, p: Path)
    requires Valid(fs)
    ensures StatNotExist(fs, p) <==> !Exists(fs, p) && DoMkdirAll(fs, p).Done?
  {
    if StatNotExist(fs, p) {
      StatNotExistMkdirAll(fs, p);
    }
  }

  /** A file on the way down to p makes os.Stat fail with "not a directory",
      an error os.IsNotExist rejects: the guards then treat p as taken,
      although nothing is at p and os.MkdirAll of p fails. */
  lemma StatBlockedByFile(fs: Fs, p: Path, i: nat)
    requires Valid(fs)
    requires 1 <= i < |p| && p[..i] in fs.files
    ensures !StatNotExist(fs, p) && !Exists(fs, p) && DoMkdirAll(fs, p).Failed?
  {
    assert 1 <= i <= |p| && p[..i] in fs.files;
    if p in fs.files || p in fs.dirs {
      AncestorsAreDirs(fs, p, i);
      assert false;
    }
  }

  /** Nothing lies below a path that does not exist. */
  lemma FreshSubtree(fs: Fs, t: Path)
    requires Valid(fs) && !Exists(fs, t)
    ensures forall q :: t <= q ==> q !in fs.files && q !in fs.dirs
  {
    forall q | t <= q && (q in fs.files || q in fs.dirs)
      ensures false
    {
      assert q != t;
      assert q[..|t|] == t;
      AncestorsAreDirs(fs, q, |t|);
    }
  }

  /** Pruning a path that does not exist changes nothing. */
  lemma PruneFresh(fs: Fs, t: Path)
    requires Valid(fs) && !Exists(fs, t)
    ensures Prune(fs, t) == fs
  {
    FreshSubtree(fs, t);
    assert Prune(fs, t).files == fs.files;
    assert Prune(fs, t).dirs == fs.dirs;
  }

  lemma PrefixOfParent(p: Path, q: Path)
    requires q != [] && p <= Parent(q)
    ensures p <= q
  {
    assert q[..|p|] == Parent(q)[..|p|];
  }

  /** Where the parent of a copied entry lands. */
  lemma RebaseParent(q: Path, src: Path, dst: Path)
    requires src <= q && |q| > |src|
    ensures Rebase(q, src, dst) != []
    ensures |q| == |src| + 1 ==> Parent(Rebase(q, src, dst)) == dst
    ensures |q| > |src| + 1 ==>
              (src <= Parent(q) && Parent(q) != src
               && Parent(Rebase(q, src, dst)) == Rebase(Parent(q), src, dst))
  {
    var r := Rebase(q, src, dst);
    if |q| == |src| + 1 {
      assert Parent(r) == dst;
    } else {
      assert Parent(q)[..|src|] == q[..|src|];
      assert Parent(r) == dst + Parent(q)[|src|..];
    }
  }

  lemma LineageParents(p: Path)
    ensures forall d :: d in Lineage(p) ==> d != [] && (Parent(d) == [] || Parent(d) in Lineage(p))
  {
    forall d | d in Lineage(p)
      ensures d != [] && (Parent(d) == [] || Parent(d) in Lineage(p))
    {
      var i :| 1 <= i <= |p| && d == p[..i];
      assert Parent(d) == p[..i - 1];
    }
  }

  lemma MkdirAllKeepsValid(fs: Fs, p: Path)
    requires Valid(fs)
    ensures DoMkdirAll(fs, p).Done? ==> Valid(DoMkdirAll(fs, p).fs)
  {
    LineageParents(p);
  }

  /** A copied entry's parent is dst itself or another copied directory. */
  lemma CopiedParents(fs: Fs, src: Path, dst: Path)
    requires Valid(fs) && src !in fs.files
    ensures forall f :: f in CopiedFiles(fs, src, dst) ==>
              f != [] && (Parent(f) == dst || Parent(f) in CopiedDirs(fs, src, dst))
    ensures forall d :: d in CopiedDirs(fs, src, dst) ==>
              d != [] && (Parent(d) == dst || Parent(d) in CopiedDirs(fs, src, dst))
  {
    var cd := CopiedDirs(fs, src, dst);
    forall f | f in CopiedFiles(fs, src, dst)
      ensures f != [] && (Parent(f) == dst || Parent(f) in cd)
    {
      var q :| q in fs.files && src <= q && f == Rebase(q, src, dst);
      assert q != src;
      RebaseParent(q, src, dst);
      if |q| > |src| + 1 {
        assert Parent(q) in fs.dirs;
      }
    }
    forall d | d in cd
      ensures d != [] && (Parent(d) == dst || Parent(d) in cd)
    {
      var q :| q in fs.dirs && src <= q && q != src && d == Rebase(q, src, dst);
      RebaseParent(q, src, dst);
      if |q| > |src| + 1 {
        assert Parent(q) in fs.dirs;
      }
    }
  }

  lemma CopyFileKeepsValid(fs: Fs, src: Path, dst: Path)
    requires Valid(fs) && src in fs.files
    ensures DoCopy(fs, src, dst).Done? ==> Valid(DoCopy(fs, src, dst).fs)
  {
    var r := DoCopy(fs, src, dst);
    if r.Done? {
      var up := Parent(dst);
      assert r.fs == Fs(fs.files[dst := fs.files[src]], fs.dirs + Lineage(up));
      LineageParents(up);
      assert dst !in Lineage(up);
      assert up == [] || up in Lineage(up) by {
        assert up != [] ==> up[..|up|] == up;
      }
      forall f | f in r.fs.files
        ensures f != [] && f !in r.fs.dirs && IsDir(r.fs, Parent(f))
      {
        if f != dst {
          assert f in fs.files;
          assert f !in Lineage(up) * fs.files.Keys;
        }
      }
    }
  }

  /** Adding directories and files whose parents are either already there or
      among the additions, and that clash with nothing, keeps the tree well-formed. */
  lemma MergeKeepsValid(fs: Fs, nf: map<Path, string>, nd: set<Path>, top: Path)
    requires Valid(fs) && (top == [] || top in nd)
    requires nd * fs.files.Keys == {} && nf.Keys * (fs.dirs + nd) == {}
    requires forall d :: d in nd ==> d != [] && (Parent(d) == [] || Parent(d) == top || Parent(d) in nd)
    requires forall f :: f in nf ==> f != [] && (Parent(f) == top || Parent(f) in nd)
    ensures Valid(Fs(fs.files + nf, fs.dirs + nd))
  {
    var r := Fs(fs.files + nf, fs.dirs + nd);
    forall f | f in r.files
      ensures f != [] && f !in r.dirs && IsDir(r, Parent(f))
    {
      if f !in nf {
        assert f in fs.files;
        assert f !in nd * fs.files.Keys;
      } else {
        assert f !in nf.Keys * (fs.dirs + nd);
      }
    }
  }

  lemma CopyDirKeepsValid(fs: Fs, src: Path, dst: Path)
    requires Valid(fs) && Exists(fs, src) && src !in fs.files
    ensures DoCopy(fs, src, dst).Done? ==> Valid(DoCopy(fs, src, dst).fs)
  {
    var r := DoCopy(fs, src, dst);
    if r.Done? {
      var cd := CopiedDirs(fs, src, dst);
      var cf := CopiedFiles(fs, src, dst);
      var nd := Lineage(dst) + cd;
      assert r.fs == Fs(fs.files + cf, fs.dirs + nd);
      CopiedParents(fs, src, dst);
      LineageParents(dst);
      assert dst == [] || dst in nd by {
        assert dst != [] ==> dst[..|dst|] == dst;
      }
      MergeKeepsValid(fs, cf, nd, dst);
    }
  }

  lemma CopyKeepsValid(fs: Fs, src: Path, dst: Path)
    requires Valid(fs)
    ensures DoCopy(fs, src, dst).Done? ==> Valid(DoCopy(fs, src, dst).fs)
  {
    if src in fs.files {
      CopyFileKeepsValid(fs, src, dst);
    } else if Exists(fs, src) {
      CopyDirKeepsValid(fs, src, dst);
    }
  }

  lemma RemoveAllKeepsValid(fs: Fs, p: Path)
    requires Valid(fs)
    ensures Valid(DoRemoveAll(fs, p).fs)
  {
    var r := Prune(fs, p);
    forall q | q in r.files || q in r.dirs
      ensures q != [] && IsDir(r, Parent(q))
    {
      if Parent(q) != [] && p <= Parent(q) {
        PrefixOfParent(p, q);
      }
    }
  }

  /** Every operation keeps the tree well-formed. */
  lemma MkdirKeepsValid(fs: Fs, p: Path)
    requires Valid(fs)
    ensures DoMkdir(fs, p).Done? ==> Valid(DoMkdir(fs, p).fs)
  {
  }

  /** A file at a path that is no directory, inside a directory. */
  lemma PutFileKeepsValid(fs: Fs, p: Path, content: string)
    requires Valid(fs)
    ensures p != [] && p !in fs.dirs && IsDir(fs, Parent(p)) ==> Valid(Fs(fs.files[p := content], fs.dirs))
  {
  }

  lemma RenameKeepsValid(fs: Fs, from: Path, to: Path)
    requires Valid(fs)
    ensures DoRename(fs, from, to).Done? ==> Valid(DoRename(fs, from, to).fs)
  {
  }

  lemma ApplyKeepsValid(fs: Fs, op: Op)
    requires Valid(fs)
    ensures Apply(fs, op).Done? ==> Valid(Apply(fs, op).fs)
  {
    match op
    case MkdirAll(p) => MkdirAllKeepsValid(fs, p);
    case Mkdir(p) => MkdirKeepsValid(fs, p);
    case Create(p) => PutFileKeepsValid(fs, p, "");
    case Append(p, text) =>
    case Copy(src, dst) => CopyKeepsValid(fs, src, dst);
    case RunPackager(tool, dir, _, artifact, run) =>
      if run.Produced? { PutFileKeepsValid(fs, artifact, run.content); }
    case Rename(from, to) => RenameKeepsValid(fs, from, to);
    case RemoveAll(p) => RemoveAllKeepsValid(fs, p);
  }
}
