/** NmPackage/save.py, class `NmPackageDepsFileFormat`: the codec between a set of
    package ids and the DOM of a `<projectName>.NmPackageDeps.props` msbuild property
    sheet, one `Import` element per package. */
module DepsFileFormat {
  import opened Wrappers
  import opened Strings
  import opened Xml
  import opened WindowsPaths
  import opened PackageIds

  // ---------------------------------------------------------------------------
  // Constants of the file format

  /** The msbuild property that names the package cache root. */
  const PackageDirToken := "$(NmPackageDir)"
  /** The property sheet every package ships. */
  const PropsFileName := "NmPackage.props"
  /** The name of a project's dependency file is its project name plus this. */
  const DepsFileSuffix := ".NmPackageDeps.props"
  const MsBuildNamespace := "http://schemas.microsoft.com/developer/msbuild/2003"

  /** The three attributes of the `Project` root. */
  const RootAttrs: map<string, string> :=
    map["DefaultTargets" := "Build", "ToolsVersion" := "4.0", "xmlns" := MsBuildNamespace]

  /** The banner comment that opens every dependency file. */
  const Banner :=
    "\nNikon Metrology packages dependency listing\n\n"
    + "WARNING: AUTO GENERATED FILE, PLEASE DO NOT EDIT MANUALLY BUT USE THE NMPKG TOOL INSTEAD!!\n\n"
    + "This file should be included in the project file (*.vcxproj) that lives in the same folder as this file.\n\n"
    + "    <Import Project=\"<ProjectName>.NmPackageDeps.props\" Condition=\"exists('<projectName>.NmPackageDeps.props')\" />\n\n"
    + "All the Nikon Metrology package property sheets that are depended on by this project are listed here.\n"
    + "A dependency  on 'packageId' is expressed as follows.\n\n"
    + "    <Import Project=\"$(NmPackageDir)\\<packageId>\\<versionId>\\NmPackage.props\" Condition=\"exists('$(NmPackageDir)\\<packageId>\\<versionId>\\NmPackage.props')\" />\n\n"
    + "the condition is needed to allow the project to be loaded if the package is not yet present on the disk\n"

  /** Why reading a dependency file fails. */
  datatype DepsError =
    | NameError           // a non-blank text node: the raise names the undefined `Exeption`
    | UnknownNode(node: Node)      // a CDATA section or processing instruction under the root
    | UnknownTag(tag: string)      // an element other than `Import`
    | MalformedPath(path: string)  // an import path that is not the canonical package path
    | NotWellFormed       // the text is not XML at all (minidom's parse error)

  // ---------------------------------------------------------------------------
  // Package <-> import path

  /** `_package_to_path`: `$(NmPackageDir)\<packageId>\<versionId>\NmPackage.props`. */
  function PackagePath(id: NmPackageId): string {
    PackageDirToken + "\\" + id.QualifiedId() + "\\" + PropsFileName
  }

  /** `_path_to_package`: read the package and version off the path's parts (its
      grandparent's and parent's names), rebuild the canonical path from them and
      accept only a byte-identical match. */
  function PathToPackage(path: string): Result<NmPackageId, DepsError> {
    var parts := Parts(path);
    var id := NmPackageId(NameAt(parts, 2), NameAt(parts, 1));
    if PackagePath(id) == path then Ok(id) else Err(MalformedPath(path))
  }

  /** Four strings joined by backslashes, the outer two clean, have the outer two as
      their first and last parts and the inner two's parts between. */
  lemma JoinedParts(d: string, p: string, v: string, f: string)
    requires Clean(d) && Clean(f)
    ensures Parts(d + "\\" + p + "\\" + v + "\\" + f) == [d] + Parts(p) + Parts(v) + [f]
  {
    var tail3 := v + ['\\'] + f;
    var tail2 := p + ['\\'] + tail3;
    assert d + "\\" + p + "\\" + v + "\\" + f == d + ['\\'] + tail2;
    CleanParts(d);
    CleanParts(f);
    PartsJoin(v, '\\', f);
    PartsJoin(p, '\\', tail3);
    PartsJoin(d, '\\', tail2);
  }

  /** The path of `NmPackageId(p, v)` is the four parts token, `p`, `v`, file name
      joined by backslashes. */
  lemma PackagePathParts(id: NmPackageId)
    ensures Parts(PackagePath(id)) == [PackageDirToken] + Parts(id.packageId) + Parts(id.versionId) + [PropsFileName]
  {
    ConstantsClean();
    assert PackagePath(id) == PackageDirToken + "\\" + id.packageId + "\\" + id.versionId + "\\" + PropsFileName;
    JoinedParts(PackageDirToken, id.packageId, id.versionId, PropsFileName);
  }

  lemma ConstantsClean()
    ensures Clean(PackageDirToken) && Clean(PropsFileName)
  {
  }

  /** An import path is accepted exactly when it is the canonical path of a valid id,
      and then that id is what is read: `_path_to_package` inverts `_package_to_path`
      on valid ids, and rejects everything else (a wrong root token or file name, a
      missing or extra level, `/` separators, an empty or `.` part). */
  lemma {:induction false} PathToPackageExact(path: string, id: NmPackageId)
    ensures PathToPackage(path) == Ok(id) <==> ValidId(id) && path == PackagePath(id)
  {
    if ValidId(id) && path == PackagePath(id) {
      PackagePathParts(id);
      CleanParts(id.packageId);
      CleanParts(id.versionId);
    }
    if PathToPackage(path) == Ok(id) {
      var parts := Parts(path);
      PartsAreClean(path);
      PackagePathParts(id);
      assert parts == [PackageDirToken] + Parts(id.packageId) + Parts(id.versionId) + [PropsFileName];
      assert |parts| >= 2 && id.versionId == parts[|parts| - 2];
      assert Clean(id.versionId);
      CleanParts(id.versionId);
      assert |parts| >= 3 && id.packageId == parts[|parts| - 3];
    }
  }

  /** Forward slashes are rejected even where `PureWindowsPath` reads the same parts. */
  lemma ForwardSlashesRejected(p: string, v: string)
    ensures PathToPackage(PackageDirToken + "/" + p + "/" + v + "/" + PropsFileName).Err?
  {
    var path := PackageDirToken + "/" + p + "/" + v + "/" + PropsFileName;
    var parts := Parts(path);
    var id := NmPackageId(NameAt(parts, 2), NameAt(parts, 1));
    assert path[|PackageDirToken|] == '/';
    assert PackagePath(id)[|PackageDirToken|] == '\\';
  }

  // ---------------------------------------------------------------------------
  // Sorting by qualified id (`sorted(packages, key=lambda p: p.qualifiedId)`)

  predicate KeyLeq(a: NmPackageId, b: NmPackageId) {
    LessEq(a.QualifiedId(), b.QualifiedId())
  }

  predicate SortedByKey(xs: seq<NmPackageId>) {
    forall i, j :: 0 <= i < j < |xs| ==> KeyLeq(xs[i], xs[j])
  }

  /** Inserts `x` after every leading element whose key is at most `x`'s: into a
      sorted list, after all elements of smaller or equal key (which keeps the sort
      stable). */
  function Insert(x: NmPackageId, s: seq<NmPackageId>): (r: seq<NmPackageId>)
    ensures multiset(r) == multiset(s) + multiset{x}
  {
    if s == [] then [x]
    else if KeyLeq(s[0], x) then
      assert s == [s[0]] + s[1..];
      [s[0]] + Insert(x, s[1..])
    else [x] + s
  }

  /** Python's stable `sorted` by `qualifiedId`, as an insertion sort. */
  function SortByQualifiedId(xs: seq<NmPackageId>): (r: seq<NmPackageId>)
    ensures multiset(r) == multiset(xs)
  {
    if xs == [] then []
    else
      assert xs == xs[..|xs| - 1] + [xs[|xs| - 1]];
      Insert(xs[|xs| - 1], SortByQualifiedId(xs[..|xs| - 1]))
  }

  lemma {:induction false} InsertSorted(x: NmPackageId, s: seq<NmPackageId>)
    requires SortedByKey(s)
    ensures SortedByKey(Insert(x, s))
    decreases |s|
  {
    if s != [] && KeyLeq(s[0], x) {
      InsertSorted(x, s[1..]);
      var r := Insert(x, s);
      var t := Insert(x, s[1..]);
      assert r == [s[0]] + t;
      forall j | 0 < j < |r|
        ensures KeyLeq(r[0], r[j])
      {
        assert r[j] in multiset(t);
        assert r[j] in multiset(s[1..]) + multiset{x};
        if r[j] != x {
          assert r[j] in s[1..];
          var k :| 0 <= k < |s[1..]| && s[1..][k] == r[j];
          assert s[k + 1] == r[j];
        }
      }
    } else if s != [] {
      var r := Insert(x, s);
      LessEqTotal(x.QualifiedId(), s[0].QualifiedId());
      forall i, j | 0 <= i < j < |r|
        ensures KeyLeq(r[i], r[j])
      {
        if i == 0 && j > 1 {
          LessEqTransitive(x.QualifiedId(), s[0].QualifiedId(), s[j - 1].QualifiedId());
        }
      }
    }
  }

  /** The sort yields a list sorted by key. */
  lemma {:induction false} SortSorted(xs: seq<NmPackageId>)
    ensures SortedByKey(SortByQualifiedId(xs))
    decreases |xs|
  {
    if xs != [] {
      SortSorted(xs[..|xs| - 1]);
      InsertSorted(xs[|xs| - 1], SortByQualifiedId(xs[..|xs| - 1]));
    }
  }

  // ---------------------------------------------------------------------------
  // Sort keys

  function Keys(xs: seq<NmPackageId>): (r: seq<string>)
    ensures |r| == |xs| && forall i :: 0 <= i < |xs| ==> r[i] == xs[i].QualifiedId()
  {
    seq(|xs|, i requires 0 <= i < |xs| => xs[i].QualifiedId())
  }

  predicate SortedStrings(ks: seq<string>) {
    forall i, j :: 0 <= i < j < |ks| ==> LessEq(ks[i], ks[j])
  }

  lemma KeysAppend(a: seq<NmPackageId>, b: seq<NmPackageId>)
    ensures Keys(a + b) == Keys(a) + Keys(b)
  {
  }

  /** Taking element `j` out of a list takes its key out of the keys. */
  lemma KeysRemove(ys: seq<NmPackageId>, j: nat)
    requires j < |ys|
    ensures multiset(Keys(ys)) == multiset(Keys(ys[..j] + ys[j + 1..])) + multiset{ys[j].QualifiedId()}
  {
    assert ys == ys[..j] + [ys[j]] + ys[j + 1..];
    KeysAppend(ys[..j] + [ys[j]], ys[j + 1..]);
    KeysAppend(ys[..j], [ys[j]]);
    KeysAppend(ys[..j], ys[j + 1..]);
  }

  /** Taking one occurrence of `x` out of a list leaves the rest of its multiset. */
  lemma MultisetRemove(ys: seq<NmPackageId>, j: nat)
    requires j < |ys|
    ensures multiset(ys[..j] + ys[j + 1..]) == multiset(ys) - multiset{ys[j]}
  {
    assert ys == ys[..j] + [ys[j]] + ys[j + 1..];
    assert multiset(ys) == multiset(ys[..j]) + multiset{ys[j]} + multiset(ys[j + 1..]);
  }

  /** Lists that are permutations of each other have permuted keys. */
  lemma {:induction false} KeysPermutation(xs: seq<NmPackageId>, ys: seq<NmPackageId>)
    requires multiset(xs) == multiset(ys)
    ensures multiset(Keys(xs)) == multiset(Keys(ys))
    decreases |xs|
  {
    if xs == [] {
      assert |ys| == |multiset(ys)| == 0;
    } else {
      var n := |xs| - 1;
      var x := xs[n];
      assert x in multiset(ys);
      var j :| 0 <= j < |ys| && ys[j] == x;
      MultisetRemove(xs, n);
      MultisetRemove(ys, j);
      assert xs[..n] + xs[n + 1..] == xs[..n];
      KeysPermutation(xs[..n], ys[..j] + ys[j + 1..]);
      KeysRemove(xs, n);
      KeysRemove(ys, j);
    }
  }

  /** The head of a sorted list of strings is its least element. */
  lemma SortedHeadLeast(a: seq<string>, x: string)
    requires SortedStrings(a) && x in a
    ensures LessEq(a[0], x)
  {
    var j :| 0 <= j < |a| && a[j] == x;
    if j == 0 {
      LessEqReflexive(x);
    }
  }

  /** A sorted list of strings is determined by its multiset of elements. */
  lemma {:induction false} SortedUnique(a: seq<string>, b: seq<string>)
    requires SortedStrings(a) && SortedStrings(b) && multiset(a) == multiset(b)
    ensures a == b
    decreases |a|
  {
    assert |a| == |multiset(a)| == |multiset(b)| == |b|;
    if a != [] {
      assert a[0] in multiset(b) && b[0] in multiset(a);
      SortedHeadLeast(b, a[0]);
      SortedHeadLeast(a, b[0]);
      LessEqAntisymmetric(a[0], b[0]);
      var a', b' := a[1..], b[1..];
      assert a == [a[0]] + a';
      assert b == [b[0]] + b';
      assert multiset(a) == multiset{a[0]} + multiset(a');
      assert multiset(b) == multiset{a[0]} + multiset(b');
      assert multiset(a') == multiset(a) - multiset{a[0]};
      assert multiset(b') == multiset(b) - multiset{a[0]};
      assert SortedStrings(a') && SortedStrings(b');
      SortedUnique(a', b');
    }
  }

  /** Permuting the input does not change the sorted keys. */
  lemma SortedKeysUnique(xs: seq<NmPackageId>, ys: seq<NmPackageId>)
    requires multiset(xs) == multiset(ys)
    ensures Keys(SortByQualifiedId(xs)) == Keys(SortByQualifiedId(ys))
  {
    var sx, sy := SortByQualifiedId(xs), SortByQualifiedId(ys);
    SortSorted(xs);
    SortSorted(ys);
    KeysPermutation(sx, sy);
    SortedUnique(Keys(sx), Keys(sy));
  }

  // ---------------------------------------------------------------------------
  // serialize

  /** The `Import` element for one package: `Project` holds the package path and
      `Condition` guards the import with `Exists('<path>')`. */
  function ImportNode(id: NmPackageId): (r: Node)
    ensures r.Element? && r.tag == "Import" && r.children == []
    ensures r.attrs.Keys == {"Project", "Condition"}
    ensures r.attrs["Project"] == PackagePath(id)
    ensures r.attrs["Condition"] == "Exists('" + PackagePath(id) + "')"
  {
    var path := PackagePath(id);
    Element("Import", map["Project" := path, "Condition" := "Exists('" + path + "')"], [])
  }

  function ImportNodes(xs: seq<NmPackageId>): (r: seq<Node>)
    ensures |r| == |xs| && forall i :: 0 <= i < |xs| ==> r[i] == ImportNode(xs[i])
  {
    seq(|xs|, i requires 0 <= i < |xs| => ImportNode(xs[i]))
  }

  /** The import element depends on the package only through its qualified id. */
  lemma ImportNodesByKey(a: seq<NmPackageId>, b: seq<NmPackageId>)
    requires Keys(a) == Keys(b)
    ensures ImportNodes(a) == ImportNodes(b)
  {
    forall i | 0 <= i < |a|
      ensures ImportNode(a[i]) == ImportNode(b[i])
    {
      assert a[i].QualifiedId() == Keys(a)[i] == b[i].QualifiedId();
    }
  }

  /** The serialized document of the packages listed in `xs` (in any order): the
      `Project` root with its three attributes, the banner comment, then one
      `Import` per package in ascending `qualifiedId` order. */
  function DocumentOf(xs: seq<NmPackageId>): Node {
    Element("Project", RootAttrs, [Comment(Banner)] + ImportNodes(SortByQualifiedId(xs)))
  }

  /** Listing the same packages in another order gives the same document. */
  lemma OrderIndependent(xs: seq<NmPackageId>, ys: seq<NmPackageId>)
    requires multiset(xs) == multiset(ys)
    ensures DocumentOf(xs) == DocumentOf(ys)
  {
    SortedKeysUnique(xs, ys);
    ImportNodesByKey(SortByQualifiedId(xs), SortByQualifiedId(ys));
  }

  /** The packages of a set, in some order. */
  ghost function Enumerate(s: set<NmPackageId>): (r: seq<NmPackageId>)
    ensures multiset(r) == multiset(s)
    decreases s
  {
    if s == {} then []
    else
      var x :| x in s;
      assert s == (s - {x}) + {x};
      [x] + Enumerate(s - {x})
  }

  /** `serialize(packages)` as a DOM: which order the set is enumerated in does not
      matter (`OrderIndependent`). */
  ghost function DepsDocument(packages: set<NmPackageId>): Node {
    DocumentOf(Enumerate(packages))
  }

  /** The packages of the set in the order iterating it yields them, which is
      unspecified. */
  method ListPackages(packages: set<NmPackageId>) returns (listed: seq<NmPackageId>)
    ensures multiset(listed) == multiset(packages)
  {
    listed := [];
    var rest := packages;
    while rest != {}
      invariant rest <= packages
      invariant multiset(listed) + multiset(rest) == multiset(packages)
      decreases rest
    {
      var x :| x in rest;
      assert rest == (rest - {x}) + {x};
      listed := listed + [x];
      rest := rest - {x};
    }
  }

  /** The loop of `serialize` that appends one `Import` per package, in order. */
  method AppendImports(root: Node, ids: seq<NmPackageId>) returns (doc: Node)
    requires root.Element?
    ensures doc == root.(children := root.children + ImportNodes(ids))
  {
    doc := root;
    var i := 0;
    while i < |ids|
      invariant 0 <= i <= |ids|
      invariant doc == root.(children := root.children + ImportNodes(ids[..i]))
    {
      assert ImportNodes(ids[..i + 1]) == ImportNodes(ids[..i]) + [ImportNode(ids[i])];
      doc := AppendChild(doc, ImportNode(ids[i]));
      i := i + 1;
    }
    assert ids[..i] == ids;
  }

  /** `NmPackageDepsFileFormat.serialize`: the set is enumerated in whatever order
      it yields its elements, sorted by qualified id, and one `Import` is appended
      to the root per package. */
  method Serialize(packages: set<NmPackageId>) returns (doc: Node)
    ensures doc == DepsDocument(packages)
  {
    var listed := ListPackages(packages);
    var sorted := SortByQualifiedId(listed);
    doc := Element("Project", RootAttrs, []);
    doc := AppendChild(doc, Comment(Banner));
    doc := AppendImports(doc, sorted);
    OrderIndependent(listed, Enumerate(packages));
  }

  // ---------------------------------------------------------------------------
  // deserialize

  /** What one child of the root contributes: nothing (a comment or whitespace-only
      text), a package (an `Import` element whose `Project` path parses), or the
      error that aborts reading. */
  function ReadChild(c: Node): Result<Option<NmPackageId>, DepsError> {
    match c
    case Comment(_) => Ok(None)
    case Text(data) => if IsBlank(data) then Ok(None) else Err(NameError)
    case Element(tag, _, _) =>
      if tag != "Import" then Err(UnknownTag(tag))
      else (
        match PathToPackage(GetAttribute(c, "Project"))
        case Ok(id) => Ok(Some(id))
        case Err(e) => Err(e))
    case _ => Err(UnknownNode(c))
  }

  /** What each child contributes, in document order. */
  function ReadChildren(cs: seq<Node>): (r: seq<Result<Option<NmPackageId>, DepsError>>)
    ensures |r| == |cs| && forall i :: 0 <= i < |cs| ==> r[i] == ReadChild(cs[i])
  {
    seq(|cs|, i requires 0 <= i < |cs| => ReadChild(cs[i]))
  }

  /** Folds the children's contributions left to right: the set of packages, or
      the error of the first child that fails. */
  function Collect(rs: seq<Result<Option<NmPackageId>, DepsError>>): Result<set<NmPackageId>, DepsError> {
    if rs == [] then Ok({})
    else
      match Collect(rs[..|rs| - 1])
      case Err(e) => Err(e)
      case Ok(ids) =>
        match rs[|rs| - 1]
        case Err(e) => Err(e)
        case Ok(None) => Ok(ids)
        case Ok(Some(id)) => Ok(ids + {id})
  }

  /** The children of the root read in document order. */
  function ReadImports(cs: seq<Node>): Result<set<NmPackageId>, DepsError> {
    Collect(ReadChildren(cs))
  }

  /** `NmPackageDepsFileFormat.deserialize` on the parsed document's root element. */
  method Deserialize(root: Node) returns (r: Result<set<NmPackageId>, DepsError>)
    requires root.Element?
    ensures r == ReadImports(root.children)
  {
    var cs := root.children;
    var rs := ReadChildren(cs);
    var ids: set<NmPackageId> := {};
    var i := 0;
    while i < |cs|
      invariant 0 <= i <= |cs|
      invariant Collect(rs[..i]) == Ok(ids)
    {
      var c := cs[i];
      assert rs[..i + 1][..i] == rs[..i];
      assert rs[i] == ReadChild(c);
      if c.Comment? {
        i := i + 1;
        continue;
      } else if c.Text? {
        if IsBlank(c.data) {
          i := i + 1;
          continue;
        } else {
          CollectErrorPropagates(rs, i + 1);
          return Err(NameError);
        }
      }
      if !c.Element? {
        CollectErrorPropagates(rs, i + 1);
        return Err(UnknownNode(c));
      }
      if c.tag != "Import" {
        CollectErrorPropagates(rs, i + 1);
        return Err(UnknownTag(c.tag));
      }
      var parsed := PathToPackage(GetAttribute(c, "Project"));
      if parsed.Err? {
        CollectErrorPropagates(rs, i + 1);
        return Err(parsed.error);
      }
      ids := ids + {parsed.value};
      i := i + 1;
    }
    assert rs[..i] == rs;
    return Ok(ids);
  }

  /** Once a prefix of the contributions fails, folding stops there: later ones do
      not change the error. */
  lemma {:induction false} CollectErrorPropagates(rs: seq<Result<Option<NmPackageId>, DepsError>>, i: nat)
    requires i <= |rs| && Collect(rs[..i]).Err?
    ensures Collect(rs) == Collect(rs[..i])
    decreases |rs| - i
  {
    if i < |rs| {
      assert rs[..i + 1][..i] == rs[..i];
      CollectErrorPropagates(rs, i + 1);
    } else {
      assert rs[..i] == rs;
    }
  }

  /** All contributions succeed: the fold succeeds with the packages named. */
  lemma {:induction false} CollectSucceeds(rs: seq<Result<Option<NmPackageId>, DepsError>>)
    requires forall i :: 0 <= i < |rs| ==> rs[i].Ok?
    ensures Collect(rs).Ok?
    ensures forall id :: id in Collect(rs).value <==> Ok(Some(id)) in rs
    decreases |rs|
  {
    if rs != [] {
      var n := |rs| - 1;
      var init := rs[..n];
      CollectSucceeds(init);
      assert rs == init + [rs[n]];
      forall id
        ensures id in Collect(rs).value <==> Ok(Some(id)) in rs
      {
        assert Ok(Some(id)) in rs <==> Ok(Some(id)) in init || rs[n] == Ok(Some(id));
      }
    }
  }

  /** A failing contribution with only successes before it decides the result. */
  lemma {:induction false} CollectFails(rs: seq<Result<Option<NmPackageId>, DepsError>>, k: nat)
    requires k < |rs| && rs[k].Err?
    requires forall i :: 0 <= i < k ==> rs[i].Ok?
    ensures Collect(rs) == Err(rs[k].error)
  {
    var init := rs[..k];
    CollectSucceeds(init);
    assert rs[..k + 1][..k] == init;
    CollectErrorPropagates(rs, k + 1);
  }

  /** Reading fails with the error of the first failing child. */
  lemma ReadImportsFails(cs: seq<Node>, k: nat)
    requires k < |cs| && ReadChild(cs[k]).Err?
    requires forall i :: 0 <= i < k ==> ReadChild(cs[i]).Ok?
    ensures ReadImports(cs) == Err(ReadChild(cs[k]).error)
  {
    CollectFails(ReadChildren(cs), k);
  }

  /** When every child reads, reading succeeds and yields exactly the packages the
      children name. */
  lemma ReadImportsSucceeds(cs: seq<Node>)
    requires forall i :: 0 <= i < |cs| ==> ReadChild(cs[i]).Ok?
    ensures ReadImports(cs).Ok?
    ensures forall id :: id in ReadImports(cs).value <==>
      exists i :: 0 <= i < |cs| && ReadChild(cs[i]) == Ok(Some(id))
  {
    var rs := ReadChildren(cs);
    CollectSucceeds(rs);
    forall id
      ensures Ok(Some(id)) in rs <==> exists i :: 0 <= i < |cs| && ReadChild(cs[i]) == Ok(Some(id))
    {
      if Ok(Some(id)) in rs {
        var i :| 0 <= i < |rs| && rs[i] == Ok(Some(id));
        assert ReadChild(cs[i]) == Ok(Some(id));
      }
    }
  }

  /** Reading succeeds exactly when every child reads. */
  lemma ReadImportsOkIff(cs: seq<Node>)
    ensures ReadImports(cs).Ok? <==> forall i :: 0 <= i < |cs| ==> ReadChild(cs[i]).Ok?
  {
    var rs := ReadChildren(cs);
    if exists i :: 0 <= i < |rs| && rs[i].Err? {
      var k := FirstFailure(rs, 0);
      CollectFails(rs, k);
    } else {
      CollectSucceeds(rs);
    }
  }

  /** The index of the first failing contribution at or after `from`. */
  function FirstFailure(rs: seq<Result<Option<NmPackageId>, DepsError>>, from: nat): (k: nat)
    requires from <= |rs|
    requires exists i :: from <= i < |rs| && rs[i].Err?
    requires forall i :: 0 <= i < from ==> rs[i].Ok?
    ensures from <= k < |rs| && rs[k].Err? && forall i :: 0 <= i < k ==> rs[i].Ok?
    decreases |rs| - from
  {
    if rs[from].Err? then from else FirstFailure(rs, from + 1)
  }

  /** A contribution of nothing may be inserted anywhere without changing the fold. */
  lemma {:induction false} CollectSkips(a: seq<Result<Option<NmPackageId>, DepsError>>, b: seq<Result<Option<NmPackageId>, DepsError>>)
    ensures Collect(a + [Ok(None)] + b) == Collect(a + b)
    decreases |b|
  {
    if b == [] {
      assert a + [Ok(None)] + b == a + [Ok(None)];
      assert (a + [Ok(None)])[..|a|] == a;
      assert a + b == a;
    } else {
      var n := |b| - 1;
      CollectSkips(a, b[..n]);
      assert (a + [Ok(None)] + b)[..|a| + 1 + n] == a + [Ok(None)] + b[..n];
      assert (a + b)[..|a| + n] == a + b[..n];
    }
  }

  /** Comments and whitespace-only text may be inserted anywhere (the blank lines a
      pretty printer adds, for one) without changing what is read. */
  lemma SkippableChildren(a: seq<Node>, t: Node, b: seq<Node>)
    requires t.Comment? || IsBlankText(t)
    ensures ReadImports(a + [t] + b) == ReadImports(a + b)
  {
    assert ReadChildren(a + [t] + b) == ReadChildren(a) + [Ok(None)] + ReadChildren(b);
    assert ReadChildren(a + b) == ReadChildren(a) + ReadChildren(b);
    CollectSkips(ReadChildren(a), ReadChildren(b));
  }

  /** Of an element, only its tag and its `Project` attribute are read: `Condition`,
      any other attribute and its children are ignored. */
  lemma OnlyProjectAttributeRead(c: Node, d: Node)
    requires c.Element? && d.Element? && c.tag == d.tag
    requires GetAttribute(c, "Project") == GetAttribute(d, "Project")
    ensures ReadChild(c) == ReadChild(d)
  {
  }

  /** Every package read is a valid id whose canonical path is the attribute it was
      read from. */
  lemma ReadChildValid(c: Node, id: NmPackageId)
    requires ReadChild(c) == Ok(Some(id))
    ensures c.Element? && c.tag == "Import"
    ensures ValidId(id) && PackagePath(id) == GetAttribute(c, "Project")
  {
    PathToPackageExact(GetAttribute(c, "Project"), id);
  }

  // ---------------------------------------------------------------------------
  // The laws of the format

  /** The serialized document: the `Project` root with exactly its three
      attributes, the banner comment first, then one `Import` per package with the
      packages in ascending `qualifiedId` order. */
  lemma DocumentShape(packages: set<NmPackageId>)
    ensures var doc := DepsDocument(packages);
      && doc.Element? && doc.tag == "Project" && doc.attrs == RootAttrs
      && |doc.children| == |packages| + 1 && doc.children[0] == Comment(Banner)
      && exists order :: SortedByKey(order) && multiset(order) == multiset(packages)
           && doc.children[1..] == ImportNodes(order)
  {
    var order := SortByQualifiedId(Enumerate(packages));
    SortSorted(Enumerate(packages));
    assert |order| == |multiset(order)| == |multiset(packages)| == |packages|;
    var doc := DepsDocument(packages);
    assert doc.children[1..] == ImportNodes(order);
  }

  /** Each `Import` written for a valid id reads back as that id. */
  lemma ImportNodeReads(id: NmPackageId)
    requires ValidId(id)
    ensures ReadChild(ImportNode(id)) == Ok(Some(id))
  {
    PathToPackageExact(PackagePath(id), id);
  }

  /** What the packages `xs` contribute when read back one by one. */
  function Found(xs: seq<NmPackageId>): (r: seq<Result<Option<NmPackageId>, DepsError>>)
    ensures |r| == |xs| && forall i :: 0 <= i < |xs| ==> r[i] == Ok(Some(xs[i]))
  {
    seq(|xs|, i requires 0 <= i < |xs| => Ok(Some(xs[i])))
  }

  /** The `Import`s written for valid ids read back as those ids, in order. */
  lemma ImportNodesRead(xs: seq<NmPackageId>)
    requires forall i :: 0 <= i < |xs| ==> ValidId(xs[i])
    ensures ReadChildren(ImportNodes(xs)) == Found(xs)
  {
    forall i | 0 <= i < |xs|
      ensures ReadChild(ImportNodes(xs)[i]) == Ok(Some(xs[i]))
    {
      ImportNodeReads(xs[i]);
    }
  }

  lemma ReadChildrenAppend(a: seq<Node>, b: seq<Node>)
    ensures ReadChildren(a + b) == ReadChildren(a) + ReadChildren(b)
  {
  }

  /** The contributions of a permutation of `packages`, after one contribution of
      nothing, name exactly `packages`. */
  lemma FoundPackages(order: seq<NmPackageId>, packages: set<NmPackageId>)
    requires multiset(order) == multiset(packages)
    ensures forall i :: 0 <= i < |order| + 1 ==> ([Ok(None)] + Found(order))[i].Ok?
    ensures forall id :: Ok(Some(id)) in [Ok(None)] + Found(order) <==> id in packages
  {
    var rs := [Ok(None)] + Found(order);
    forall id
      ensures Ok(Some(id)) in rs <==> id in packages
    {
      if Ok(Some(id)) in rs {
        var i :| 0 <= i < |rs| && rs[i] == Ok(Some(id));
        assert order[i - 1] in multiset(packages);
      }
      if id in packages {
        assert id in multiset(order);
        var j :| 0 <= j < |order| && order[j] == id;
        assert rs[j + 1] == Ok(Some(id));
      }
    }
  }

  /** The banner reads as nothing, each `Import` as its package. */
  lemma DocumentChildrenRead(order: seq<NmPackageId>)
    requires forall i :: 0 <= i < |order| ==> ValidId(order[i])
    ensures ReadChildren([Comment(Banner)] + ImportNodes(order)) == [Ok(None)] + Found(order)
  {
    ImportNodesRead(order);
    ReadChildrenAppend([Comment(Banner)], ImportNodes(order));
    assert ReadChildren([Comment(Banner)]) == [Ok(None)];
  }

  /** `deserialize(serialize(S)) == S` for every set of valid ids. */
  lemma RoundTrip(packages: set<NmPackageId>)
    requires forall id :: id in packages ==> ValidId(id)
    ensures ReadImports(DepsDocument(packages).children) == Ok(packages)
  {
    var order := SortByQualifiedId(Enumerate(packages));
    var cs := DepsDocument(packages).children;
    assert cs == [Comment(Banner)] + ImportNodes(order);
    assert forall i :: 0 <= i < |order| ==> order[i] in multiset(order);
    var rs := [Ok(None)] + Found(order);
    DocumentChildrenRead(order);
    FoundPackages(order, packages);
    CollectSucceeds(rs);
    assert Collect(rs).value == packages;
  }

  /** The document of no packages holds only the banner, and reads as the empty set. */
  lemma EmptyDocument()
    ensures DepsDocument({}) == Element("Project", RootAttrs, [Comment(Banner)])
    ensures ReadImports(DepsDocument({}).children) == Ok({})
  {
    RoundTrip({});
  }

  /** The sort key is the qualified id, not the path: `x\1` sorts before `x\10`,
      although the path of `x\10` sorts before the path of `x\1` (`0` < `\`). */
  lemma KeyOrderIsNotPathOrder()
    ensures SortByQualifiedId([NmPackageId("x", "10"), NmPackageId("x", "1")])
      == [NmPackageId("x", "1"), NmPackageId("x", "10")]
    ensures !LessEq(PackagePath(NmPackageId("x", "1")), PackagePath(NmPackageId("x", "10")))
  {
    var a, b := NmPackageId("x", "1"), NmPackageId("x", "10");
    assert a.QualifiedId() == "x\\1" && b.QualifiedId() == "x\\10";
    assert LessEq("1", "10");
    assert !LessEq("10", "1");
    assert !KeyLeq(b, a);
    assert Insert(a, [b]) == [a, b];
    var pre := PackageDirToken + "\\x\\1";
    var ta, tb := "\\" + PropsFileName, "0\\" + PropsFileName;
    assert PackagePath(a) == pre + ta;
    assert PackagePath(b) == pre + tb;
    LessEqCommonPrefix(pre, ta, tb);
    assert ta[0] == '\\' && tb[0] == '0';
    assert !LessEq(ta, tb);
  }
}
