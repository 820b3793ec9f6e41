/** NmPackage/cli/uninstall.py: `collect_all_packages`, which walks a source tree
    (skipping `.svn` and `.git` folders), reads every `*.NmPackageDeps.props` file it
    finds and unites the package sets they list; and `main`, which uninstalls each
    distinct package named on the command line unless it is a dry run.

    The file system is an in-memory tree. A file's content is its parsed document
    root, or `None` when the text is not well-formed XML. */
module Uninstall {
  import opened Wrappers
  import opened Strings
  import opened Xml
  import opened PackageIds
  import opened DepsFileFormat
  import opened DebugLogs

  datatype File = File(name: string, document: Option<Node>)

  datatype Dir = Dir(name: string, files: seq<File>, subdirs: seq<Dir>)

  /** The folders `os.walk` is kept out of, in the order they are removed. */
  const IgnoreFolders := [".svn", ".git"]

  predicate IsIgnored(name: string) {
    name == ".svn" || name == ".git"
  }

  // ---------------------------------------------------------------------------
  // The walk

  /** `if name in dirs: dirs.remove(name)`: the first folder of that name goes. */
  function RemoveFirst(dirs: seq<Dir>, name: string): (r: seq<Dir>)
    ensures forall d :: d in r ==> d in dirs
    ensures (forall j :: 0 <= j < |dirs| ==> dirs[j].name != name) ==> r == dirs
    decreases |dirs|
  {
    if dirs == [] then []
    else if dirs[0].name == name then dirs[1..]
    else [dirs[0]] + RemoveFirst(dirs[1..], name)
  }

  /** The sub-folders left after removing each of `names` in turn. */
  function RemoveAll(dirs: seq<Dir>, names: seq<string>): (r: seq<Dir>)
    ensures forall d :: d in r ==> d in dirs
    decreases |names|
  {
    if names == [] then dirs else RemoveAll(RemoveFirst(dirs, names[0]), names[1..])
  }

  /** The sub-folders `os.walk` goes on to visit after the pruning loop. */
  function Pruned(dirs: seq<Dir>): seq<Dir> {
    RemoveAll(dirs, IgnoreFolders)
  }

  /** The pruning loop over `ignoreFolders`, which edits the `dirs` list `os.walk`
      yielded. */
  method PruneVcs(dirs: seq<Dir>) returns (kept: seq<Dir>)
    ensures kept == Pruned(dirs)
  {
    kept := dirs;
    var i := 0;
    while i < |IgnoreFolders|
      invariant 0 <= i <= |IgnoreFolders|
      invariant RemoveAll(kept, IgnoreFolders[i..]) == Pruned(dirs)
    {
      var f := IgnoreFolders[i];
      assert IgnoreFolders[i..][1..] == IgnoreFolders[i + 1..];
      if exists j :: 0 <= j < |kept| && kept[j].name == f {
        kept := RemoveFirst(kept, f);
      }
      i := i + 1;
    }
  }

  /** The number of folders in a forest: what the walk uses up. */
  function SizeAll(ds: seq<Dir>): nat
    decreases ds
  {
    if ds == [] then 0 else 1 + SizeAll(ds[0].subdirs) + SizeAll(ds[1..])
  }

  lemma {:induction false} SizeAllAppend(a: seq<Dir>, b: seq<Dir>)
    ensures SizeAll(a + b) == SizeAll(a) + SizeAll(b)
    decreases |a|
  {
    if a != [] {
      assert (a + b)[1..] == a[1..] + b;
      SizeAllAppend(a[1..], b);
    } else {
      assert a + b == b;
    }
  }

  lemma {:induction false} RemoveFirstSize(dirs: seq<Dir>, name: string)
    ensures SizeAll(RemoveFirst(dirs, name)) <= SizeAll(dirs)
    decreases |dirs|
  {
    if dirs != [] && dirs[0].name != name {
      RemoveFirstSize(dirs[1..], name);
      assert ([dirs[0]] + RemoveFirst(dirs[1..], name))[1..] == RemoveFirst(dirs[1..], name);
    }
  }

  lemma {:induction false} RemoveAllSize(dirs: seq<Dir>, names: seq<string>)
    ensures SizeAll(RemoveAll(dirs, names)) <= SizeAll(dirs)
    decreases |names|
  {
    if names != [] {
      RemoveFirstSize(dirs, names[0]);
      RemoveAllSize(RemoveFirst(dirs, names[0]), names[1..]);
    }
  }

  /** Taking the first pending folder and putting its pruned sub-folders in front
      of the rest leaves less to walk. */
  lemma WalkStepSize(ds: seq<Dir>)
    requires ds != []
    ensures SizeAll(Pruned(ds[0].subdirs) + ds[1..]) < SizeAll(ds)
  {
    RemoveAllSize(ds[0].subdirs, IgnoreFolders);
    SizeAllAppend(Pruned(ds[0].subdirs), ds[1..]);
  }

  /** The folders `os.walk` yields, top-down, starting from the pending ones `ds`:
      a folder, then (depth first) what is left of its sub-folders, then the rest. */
  function Visited(ds: seq<Dir>): seq<Dir>
    decreases SizeAll(ds)
  {
    if ds == [] then []
    else
      WalkStepSize(ds);
      [ds[0]] + Visited(Pruned(ds[0].subdirs) + ds[1..])
  }

  /** `[f for f in files if f.endswith(".NmPackageDeps.props")]` */
  function Matched(files: seq<File>): (r: seq<File>)
    ensures forall f :: f in r <==> f in files && EndsWith(f.name, DepsFileSuffix)
    ensures (forall f :: f in files ==> !EndsWith(f.name, DepsFileSuffix)) ==> r == []
    decreases |files|
  {
    if files == [] then []
    else
      var rest := Matched(files[1..]);
      assert files == [files[0]] + files[1..];
      (if EndsWith(files[0].name, DepsFileSuffix) then [files[0]] else []) + rest
  }

  /** The dependency files of the folders `vs`, in order. */
  function Found(vs: seq<Dir>): seq<File>
    decreases |vs|
  {
    if vs == [] then [] else Matched(vs[0].files) + Found(vs[1..])
  }

  /** The dependency files the walk reads, in the order it reads them. */
  function Walk(ds: seq<Dir>): seq<File> {
    Found(Visited(ds))
  }

  lemma WalkStep(ds: seq<Dir>)
    requires ds != []
    ensures Walk(ds) == Matched(ds[0].files) + Walk(Pruned(ds[0].subdirs) + ds[1..])
  {
    var vs := Visited(ds);
    assert vs[0] == ds[0] && vs[1..] == Visited(Pruned(ds[0].subdirs) + ds[1..]);
  }

  // ---------------------------------------------------------------------------
  // Reading and uniting

  /** `NmPackageDepsFileFormat.deserialize(f.read())` on one file. */
  function ReadFile(f: File): Result<set<NmPackageId>, DepsError> {
    match f.document
    case None => Err(NotWellFormed)
    case Some(root) => if root.Element? then ReadImports(root.children) else Err(NotWellFormed)
  }

  method ReadDepsFile(f: File) returns (r: Result<set<NmPackageId>, DepsError>)
    ensures r == ReadFile(f)
  {
    if f.document.None? || !f.document.value.Element? {
      return Err(NotWellFormed);
    }
    r := Deserialize(f.document.value);
  }

  /** `packages.update(...)` after an earlier result: the first error wins. */
  function Join(a: Result<set<NmPackageId>, DepsError>, b: Result<set<NmPackageId>, DepsError>): Result<set<NmPackageId>, DepsError> {
    match a
    case Err(e) => Err(e)
    case Ok(s) => (match b case Err(e) => Err(e) case Ok(t) => Ok(s + t))
  }

  /** Reading the files `fs` one after another into one set. */
  function Gather(fs: seq<File>): Result<set<NmPackageId>, DepsError>
    decreases |fs|
  {
    if fs == [] then Ok({}) else Join(ReadFile(fs[0]), Gather(fs[1..]))
  }

  /** The gathered files succeed exactly when each file reads. */
  lemma {:induction false} GatherOk(fs: seq<File>)
    ensures Gather(fs).Ok? <==> forall f :: f in fs ==> ReadFile(f).Ok?
    decreases |fs|
  {
    if fs != [] {
      GatherOk(fs[1..]);
      assert fs == [fs[0]] + fs[1..];
    }
  }

  /** The packages gathered are those listed by some file. */
  lemma {:induction false} GatherUnion(fs: seq<File>)
    requires Gather(fs).Ok?
    ensures forall id :: id in Gather(fs).value <==> exists f :: f in fs && ReadFile(f).Ok? && id in ReadFile(f).value
    decreases |fs|
  {
    if fs != [] {
      GatherUnion(fs[1..]);
      assert fs == [fs[0]] + fs[1..];
      assert forall f :: f in fs <==> f == fs[0] || f in fs[1..];
    }
  }

  /** A failure is the error of the first file that does not read. */
  lemma {:induction false} GatherFails(fs: seq<File>, k: nat)
    requires k < |fs| && ReadFile(fs[k]).Err?
    requires forall j :: 0 <= j < k ==> ReadFile(fs[j]).Ok?
    ensures Gather(fs) == Err(ReadFile(fs[k]).error)
    decreases k
  {
    if k > 0 {
      GatherFails(fs[1..], k - 1);
    }
  }

  /** The result does not depend on the order the files are read in. */
  lemma GatherOrderIndependent(fs: seq<File>, gs: seq<File>)
    requires multiset(fs) == multiset(gs)
    ensures Gather(fs).Ok? <==> Gather(gs).Ok?
    ensures Gather(fs).Ok? ==> Gather(fs).value == Gather(gs).value
  {
    assert forall f :: f in fs <==> f in multiset(fs);
    assert forall f :: f in gs <==> f in multiset(gs);
    GatherOk(fs);
    GatherOk(gs);
    if Gather(fs).Ok? {
      GatherUnion(fs);
      GatherUnion(gs);
    }
  }

  // ---------------------------------------------------------------------------
  // collect_all_packages

  datatype CollectError =
    | NotADirectory                // the opening `assert Path(tree).is_dir()`
    | Unreadable(error: DepsError) // a dependency file that does not deserialize

  /** `collect_all_packages(tree)`: `None` when the path is not a directory. */
  function CollectAll(tree: Option<Dir>): Result<set<NmPackageId>, CollectError> {
    match tree
    case None => Err(NotADirectory)
    case Some(root) =>
      (match Gather(Walk([root]))
       case Ok(s) => Ok(s)
       case Err(e) => Err(Unreadable(e)))
  }

  /** Gathering a concatenation gathers each part, the first error winning. */
  lemma {:induction false} GatherAppend(a: seq<File>, b: seq<File>)
    ensures Gather(a + b) == Join(Gather(a), Gather(b))
    decreases |a|
  {
    if a != [] {
      assert (a + b)[0] == a[0];
      assert (a + b)[1..] == a[1..] + b;
      GatherAppend(a[1..], b);
      JoinAssociative(ReadFile(a[0]), Gather(a[1..]), Gather(b));
    } else {
      assert a + b == b;
      if Gather(b).Ok? {
        assert {} + Gather(b).value == Gather(b).value;
      }
    }
  }

  lemma JoinAssociative(x: Result<set<NmPackageId>, DepsError>, y: Result<set<NmPackageId>, DepsError>,
                        z: Result<set<NmPackageId>, DepsError>)
    ensures Join(x, Join(y, z)) == Join(Join(x, y), z)
  {
    if x.Ok? && y.Ok? && z.Ok? {
      assert x.value + (y.value + z.value) == (x.value + y.value) + z.value;
    }
  }

  /** The loop of `collect_all_packages` over one folder's dependency files:
      `packages.update(deserialize(...))` for each, in order. */
  method ReadAll(files: seq<File>, packages: set<NmPackageId>) returns (r: Result<set<NmPackageId>, DepsError>)
    ensures r == Join(Ok(packages), Gather(files))
  {
    var acc := packages;
    var k := 0;
    while k < |files|
      invariant 0 <= k <= |files|
      invariant Join(Ok(packages), Gather(files)) == Join(Ok(acc), Gather(files[k..]))
    {
      assert files[k..][1..] == files[k + 1..];
      JoinAssociative(Ok(acc), ReadFile(files[k]), Gather(files[k + 1..]));
      var contents := ReadDepsFile(files[k]);
      if contents.Err? {
        return Err(contents.error);
      }
      acc := acc + contents.value;
      k := k + 1;
    }
    assert acc + {} == acc;
    r := Ok(acc);
  }

  method CollectAllPackages(tree: Option<Dir>) returns (r: Result<set<NmPackageId>, CollectError>)
    ensures r == CollectAll(tree)
  {
    if tree.None? {
      return Err(NotADirectory);
    }
    var root := tree.value;
    ghost var target := Gather(Walk([root]));
    var packages: set<NmPackageId> := {};
    var pending := [root];
    assert target.Ok? ==> {} + target.value == target.value;
    while pending != []
      invariant Join(Ok(packages), Gather(Walk(pending))) == target
      decreases SizeAll(pending)
    {
      var d := pending[0];
      var dirs := PruneVcs(d.subdirs);
      var depsFiles := Matched(d.files);
      WalkStep(pending);
      WalkStepSize(pending);
      GatherAppend(depsFiles, Walk(dirs + pending[1..]));
      JoinAssociative(Ok(packages), Gather(depsFiles), Gather(Walk(dirs + pending[1..])));
      var read := ReadAll(depsFiles, packages);
      if read.Err? {
        return Err(Unreadable(read.error));
      }
      packages := read.value;
      pending := dirs + pending[1..];
    }
    assert packages + {} == packages;
    r := Ok(packages);
  }

  // ---------------------------------------------------------------------------
  // What the walk reads

  /** Every file read is a dependency file. */
  lemma {:induction false} WalkReadsDepsFiles(ds: seq<Dir>)
    ensures forall f :: f in Walk(ds) ==> EndsWith(f.name, DepsFileSuffix)
    decreases SizeAll(ds)
  {
    if ds != [] {
      WalkStep(ds);
      WalkStepSize(ds);
      WalkReadsDepsFiles(Pruned(ds[0].subdirs) + ds[1..]);
    }
  }

  /** The files of a folder and of everything below it. */
  function TreeFiles(d: Dir): set<File>
    decreases d
  {
    (set f | f in d.files) + (set c, f | c in d.subdirs && f in TreeFiles(c) :: f)
  }

  lemma ChildTreeFiles(d: Dir, c: Dir)
    requires c in d.subdirs
    ensures TreeFiles(c) <= TreeFiles(d)
  {
  }

  /** Folders whose trees hold no dependency file give the walk nothing to read. */
  lemma {:induction false} NothingMatchedWalk(ds: seq<Dir>)
    requires forall d, f :: d in ds && f in TreeFiles(d) ==> !EndsWith(f.name, DepsFileSuffix)
    ensures Walk(ds) == []
    decreases SizeAll(ds)
  {
    if ds != [] {
      WalkStep(ds);
      WalkStepSize(ds);
      var next := Pruned(ds[0].subdirs) + ds[1..];
      assert ds[0] in ds;
      assert forall f :: f in ds[0].files ==> f in TreeFiles(ds[0]);
      forall d, f | d in next && f in TreeFiles(d)
        ensures !EndsWith(f.name, DepsFileSuffix)
      {
        if d in Pruned(ds[0].subdirs) {
          ChildTreeFiles(ds[0], d);
        } else {
          assert d in ds;
        }
      }
      NothingMatchedWalk(next);
    }
  }

  /** A tree without dependency files yields the empty set. */
  lemma NothingMatchedIsEmpty(root: Dir)
    requires forall f :: f in TreeFiles(root) ==> !EndsWith(f.name, DepsFileSuffix)
    ensures CollectAll(Some(root)) == Ok({})
  {
    NothingMatchedWalk([root]);
  }

  /** A dependency file that does not read aborts the whole collection with its
      error, whatever the other files hold. */
  lemma FailureAborts(root: Dir, k: nat)
    requires k < |Walk([root])| && ReadFile(Walk([root])[k]).Err?
    requires forall j :: 0 <= j < k ==> ReadFile(Walk([root])[j]).Ok?
    ensures CollectAll(Some(root)) == Err(Unreadable(ReadFile(Walk([root])[k]).error))
  {
    GatherFails(Walk([root]), k);
  }

  /** The collection succeeds exactly when every dependency file reads, and is
      then the union of what they list. */
  lemma CollectIsUnion(root: Dir)
    ensures CollectAll(Some(root)).Ok? <==> forall f :: f in Walk([root]) ==> ReadFile(f).Ok?
    ensures CollectAll(Some(root)).Ok? ==>
      (forall id :: id in CollectAll(Some(root)).value
         <==> exists f :: f in Walk([root]) && ReadFile(f).Ok? && id in ReadFile(f).value)
  {
    GatherOk(Walk([root]));
    if Gather(Walk([root])).Ok? {
      GatherUnion(Walk([root]));
    }
  }

  // ---------------------------------------------------------------------------
  // Version-control folders are skipped

  /** Folder names are unique within a folder, as on any file system. */
  predicate DistinctSiblings(ds: seq<Dir>) {
    forall i, j :: 0 <= i < j < |ds| ==> ds[i].name != ds[j].name
  }

  predicate WellFormed(d: Dir)
    decreases d
  {
    DistinctSiblings(d.subdirs) && forall c :: c in d.subdirs ==> WellFormed(c)
  }

  lemma {:induction false} RemoveFirstDistinct(dirs: seq<Dir>, name: string)
    requires DistinctSiblings(dirs)
    ensures DistinctSiblings(RemoveFirst(dirs, name))
    ensures forall d :: d in RemoveFirst(dirs, name) ==> d.name != name
    decreases |dirs|
  {
    if dirs != [] && dirs[0].name != name {
      RemoveFirstDistinct(dirs[1..], name);
      var r := RemoveFirst(dirs, name);
      assert r == [dirs[0]] + RemoveFirst(dirs[1..], name);
      forall i, j | 0 <= i < j < |r|
        ensures r[i].name != r[j].name
      {
        if i == 0 {
          assert r[j] in dirs[1..];
        }
      }
    } else if dirs != [] {
      assert forall d :: d in dirs[1..] ==> d.name != name;
    }
  }

  /** In a folder with unique names, pruning removes every `.svn` and `.git`. */
  lemma PrunedSkipsVcs(dirs: seq<Dir>)
    requires DistinctSiblings(dirs)
    ensures forall d :: d in Pruned(dirs) ==> !IsIgnored(d.name)
  {
    RemoveFirstDistinct(dirs, ".svn");
    var once := RemoveFirst(dirs, ".svn");
    RemoveFirstDistinct(once, ".git");
    assert Pruned(dirs) == RemoveFirst(once, ".git");
  }

  /** `collect_all_packages` never enters a `.svn` or `.git` folder below the
      folders it starts from, so no file under one is read. */
  lemma {:induction false} NeverEntersVcs(ds: seq<Dir>)
    requires forall d :: d in ds ==> WellFormed(d)
    ensures forall d :: d in Visited(ds) ==> d in ds || !IsIgnored(d.name)
    decreases SizeAll(ds)
  {
    if ds != [] {
      WalkStepSize(ds);
      var next := Pruned(ds[0].subdirs) + ds[1..];
      assert ds[0] in ds && WellFormed(ds[0]);
      assert forall d :: d in next ==> d in ds[0].subdirs || d in ds;
      PrunedSkipsVcs(ds[0].subdirs);
      NeverEntersVcs(next);
      assert Visited(ds) == [ds[0]] + Visited(next);
    }
  }

  // ---------------------------------------------------------------------------
  // main

  /** The line `main` logs before uninstalling `p`. */
  function UninstallMessage(p: NmPackageId): string {
    "uninstalling NmPackage: " + p.QualifiedId()
  }

  /** What `main` logs for the packages it uninstalls, in order. */
  function UninstallLog(enabled: bool, lvl: int, ps: seq<NmPackageId>): (r: seq<string>)
    ensures !enabled ==> r == []
    ensures enabled ==> |r| == |ps|
    decreases |ps|
  {
    if ps == [] then [] else Emitted(enabled, lvl, UninstallMessage(ps[0])) + UninstallLog(enabled, lvl, ps[1..])
  }

  lemma UninstallLogAppend(enabled: bool, lvl: int, ps: seq<NmPackageId>, p: NmPackageId)
    ensures UninstallLog(enabled, lvl, ps + [p]) == UninstallLog(enabled, lvl, ps) + Emitted(enabled, lvl, UninstallMessage(p))
    decreases |ps|
  {
    if ps != [] {
      assert (ps + [p])[1..] == ps[1..] + [p];
      UninstallLogAppend(enabled, lvl, ps[1..], p);
    } else {
      assert [p][1..] == [];
    }
  }

  /** `main` after argument parsing: the ids become a set; a dry run stops there;
      otherwise every package of the set is logged and uninstalled once. The result
      is the sequence of `mgr.uninstall` calls. */
  method UninstallMain(log: DebugLog, qualifiedPackageIds: seq<NmPackageId>, dryRun: bool)
    returns (uninstalled: seq<NmPackageId>)
    modifies log
    ensures dryRun ==> uninstalled == [] && log.output == old(log.output)
    ensures !dryRun ==> forall p :: p in uninstalled <==> p in qualifiedPackageIds
    ensures forall i, j :: 0 <= i < j < |uninstalled| ==> uninstalled[i] != uninstalled[j]
    ensures log.indentLvl == old(log.indentLvl) && log.enabled == old(log.enabled)
    ensures log.output == old(log.output) + UninstallLog(log.enabled, log.indentLvl, uninstalled)
  {
    var packages: set<NmPackageId> := {};
    var i := 0;
    while i < |qualifiedPackageIds|
      invariant 0 <= i <= |qualifiedPackageIds|
      invariant forall p :: p in packages <==> p in qualifiedPackageIds[..i]
    {
      packages := packages + {qualifiedPackageIds[i]};
      i := i + 1;
    }
    assert qualifiedPackageIds[..i] == qualifiedPackageIds;
    uninstalled := [];
    if dryRun {
      return;
    }
    var rest := packages;
    while rest != {}
      invariant rest <= packages
      invariant forall p :: p in packages <==> p in rest || p in uninstalled
      invariant forall p :: p in uninstalled ==> p !in rest
      invariant forall i, j :: 0 <= i < j < |uninstalled| ==> uninstalled[i] != uninstalled[j]
      invariant log.indentLvl == old(log.indentLvl) && log.enabled == old(log.enabled)
      invariant log.output == old(log.output) + UninstallLog(log.enabled, log.indentLvl, uninstalled)
      decreases rest
    {
      var p :| p in rest;
      log.Print(UninstallMessage(p));
      UninstallLogAppend(log.enabled, log.indentLvl, uninstalled, p);
      uninstalled := uninstalled + [p];
      rest := rest - {p};
    }
  }
}
