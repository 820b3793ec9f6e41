/** NmPackage/save.py outside the codec: resolving the project file (`find_vcxproj`),
    dropping whitespace-only text from complex elements (`sanitize_text_nodes`), and
    hooking a project up to its dependency file (`integrate_vsproject`, `Integrate`). */
module Save {
  import opened Wrappers
  import opened Strings
  import opened Xml
  import opened WindowsPaths
  import opened PackageIds
  import opened DepsFileFormat

  // ---------------------------------------------------------------------------
  // find_vcxproj

  /** What the filesystem says about the argument: whether it is a file or a
      directory, whether its name matches `*.vcxproj`, and the `*.vcxproj` entries
      of the directory as `glob` lists them. */
  datatype PathFacts = PathFacts(
    path: string, isFile: bool, isDir: bool, matchesPattern: bool, globMatches: seq<string>)

  datatype FindError =
    | NotAProjectFile(path: string)
    | NoProjectFiles(dir: string)
    | JoinTypeError                          // `str.join` over `Path` objects
    | MultipleProjectFiles(candidates: seq<string>)
    | UnknownArgument(path: string)

  /** `find_vcxproj` as written: with several candidates the message is built by
      joining `Path` objects, which raises a `TypeError` before the intended error. */
  function FindVcxprojAsWritten(f: PathFacts): Result<string, FindError> {
    if f.isFile then
      if !f.matchesPattern then Err(NotAProjectFile(f.path)) else Ok(f.path)
    else if f.isDir then
      if |f.globMatches| == 1 then Ok(f.globMatches[0])
      else if |f.globMatches| == 0 then Err(NoProjectFiles(f.path))
      else Err(JoinTypeError)
    else Err(UnknownArgument(f.path))
  }

  /** `find_vcxproj` as intended: several candidates are reported as such. */
  function FindVcxproj(f: PathFacts): Result<string, FindError> {
    if f.isFile then
      if !f.matchesPattern then Err(NotAProjectFile(f.path)) else Ok(f.path)
    else if f.isDir then
      if |f.globMatches| == 1 then Ok(f.globMatches[0])
      else if |f.globMatches| == 0 then Err(NoProjectFiles(f.path))
      else Err(MultipleProjectFiles(f.globMatches))
    else Err(UnknownArgument(f.path))
  }

  /** A project file is found exactly when the argument is a matching file (it is
      returned as is) or a directory with a single match (that match). */
  lemma FindVcxprojOk(f: PathFacts, p: string)
    ensures FindVcxproj(f) == Ok(p) <==>
      (f.isFile && f.matchesPattern && p == f.path) || (!f.isFile && f.isDir && f.globMatches == [p])
  {
    if !f.isFile && f.isDir && |f.globMatches| == 1 {
      assert f.globMatches == [f.globMatches[0]];
    }
  }

  /** Every other argument is refused, each with its own error. */
  lemma FindVcxprojErrors(f: PathFacts)
    ensures f.isFile && !f.matchesPattern <==> FindVcxproj(f) == Err(NotAProjectFile(f.path))
    ensures !f.isFile && f.isDir && f.globMatches == [] <==> FindVcxproj(f) == Err(NoProjectFiles(f.path))
    ensures !f.isFile && f.isDir && |f.globMatches| > 1 <==> FindVcxproj(f) == Err(MultipleProjectFiles(f.globMatches))
    ensures !f.isFile && !f.isDir <==> FindVcxproj(f) == Err(UnknownArgument(f.path))
  {
  }

  /** The two versions differ only where several candidates are found. */
  lemma FindVcxprojAsWrittenDiffers(f: PathFacts)
    ensures FindVcxprojAsWritten(f) != FindVcxproj(f) <==> !f.isFile && f.isDir && |f.globMatches| > 1
  {
  }

  const NotAProjectFilePhrase := "file is not a *.vcxproj file"
  const NoProjectFilesPhrase := "no project files found in the given directory:"
  const MultipleProjectFilesPhrase := "multiple project files found."
  const UnknownArgumentPhrase := "expected *.vcxproj file or dir containing a single *.vcxproj file"

  /** The candidates, one per line, as the message was meant to list them. */
  function JoinCandidates(cs: seq<string>): string {
    if cs == [] then "" else if |cs| == 1 then cs[0] else cs[0] + "\n  * " + JoinCandidates(cs[1..])
  }

  /** The text of each error (`str(path)` is the path itself). */
  function FindMessage(e: FindError): string {
    match e
    case NotAProjectFile(p) => NotAProjectFilePhrase + (": " + p)
    case NoProjectFiles(d) => NoProjectFilesPhrase + ("\n" + d)
    case JoinTypeError => "sequence item 0: expected str instance"
    case MultipleProjectFiles(cs) =>
      MultipleProjectFilesPhrase + (" specify single project on the command line.\n" + JoinCandidates(cs))
    case UnknownArgument(p) => ("unknown argument: " + p + "\n") + UnknownArgumentPhrase
  }

  /** Each message carries the phrase a caller (and the error-flow tests) look for. */
  lemma FindMessages(p: string, cs: seq<string>)
    ensures StartsWith(FindMessage(NotAProjectFile(p)), NotAProjectFilePhrase)
    ensures StartsWith(FindMessage(NoProjectFiles(p)), NoProjectFilesPhrase)
    ensures StartsWith(FindMessage(MultipleProjectFiles(cs)), MultipleProjectFilesPhrase)
    ensures EndsWith(FindMessage(UnknownArgument(p)), UnknownArgumentPhrase)
  {
    StartsWithConcat(NotAProjectFilePhrase, ": " + p);
    StartsWithConcat(NoProjectFilesPhrase, "\n" + p);
    StartsWithConcat(MultipleProjectFilesPhrase, " specify single project on the command line.\n" + JoinCandidates(cs));
    EndsWithConcat("unknown argument: " + p + "\n", UnknownArgumentPhrase);
  }

  /** The directory of the multiple-projects test (`proj1.vcxproj`, `proj2.vcxproj`):
      as written it raises a `TypeError`, where the message the test expects was
      intended. */
  lemma MultipleProjectsExample()
    ensures var f := PathFacts(".", false, true, false, ["proj1.vcxproj", "proj2.vcxproj"]);
      && FindVcxprojAsWritten(f) == Err(JoinTypeError)
      && FindVcxproj(f) == Err(MultipleProjectFiles(["proj1.vcxproj", "proj2.vcxproj"]))
      && StartsWith(FindMessage(FindVcxproj(f).error), MultipleProjectFilesPhrase)
  {
    FindMessages(".", ["proj1.vcxproj", "proj2.vcxproj"]);
  }

  // ---------------------------------------------------------------------------
  // sanitize_text_nodes

  predicate HasElementChild(cs: seq<Node>) {
    exists i :: 0 <= i < |cs| && cs[i].Element?
  }

  /** The children without the whitespace-only text nodes, in their order. */
  function DropBlankText(cs: seq<Node>): (r: seq<Node>)
    ensures forall i :: 0 <= i < |r| ==> r[i] in cs && !IsBlankText(r[i])
    ensures forall c :: c in cs && !IsBlankText(c) ==> c in r
  {
    if cs == [] then []
    else (if IsBlankText(cs[0]) then [] else [cs[0]]) + DropBlankText(cs[1..])
  }

  lemma DropBlankTextOne(c: Node)
    ensures DropBlankText([c]) == if IsBlankText(c) then [] else [c]
  {
    assert [c][1..] == [];
  }

  lemma {:induction false} DropBlankTextAppend(a: seq<Node>, b: seq<Node>)
    ensures DropBlankText(a + b) == DropBlankText(a) + DropBlankText(b)
    decreases |a|
  {
    if a != [] {
      assert (a + b)[1..] == a[1..] + b;
      DropBlankTextAppend(a[1..], b);
    } else {
      assert a + b == b;
    }
  }

  /** `sanitize_text_nodes(n)`: an element with child elements loses its
      whitespace-only text children and each child element is sanitized in turn;
      an element without child elements (its text is its data) is left alone. */
  function Sanitized(n: Node): (r: Node)
    ensures r.Element? == n.Element?
    ensures n.Element? ==> r.tag == n.tag && r.attrs == n.attrs
    ensures !n.Element? ==> r == n
    decreases n, 1, 0
  {
    if n.Element? && HasElementChild(n.children) then n.(children := SanitizedFrom(n, 0)) else n
  }

  /** The sanitized children of `n` from index `i` on. */
  function SanitizedFrom(n: Node, i: nat): seq<Node>
    requires n.Element? && i <= |n.children|
    decreases n, 0, |n.children| - i
  {
    if i == |n.children| then []
    else (if IsBlankText(n.children[i]) then [] else [Sanitized(n.children[i])]) + SanitizedFrom(n, i + 1)
  }

  function MapSanitized(cs: seq<Node>): (r: seq<Node>)
    ensures |r| == |cs| && forall i :: 0 <= i < |cs| ==> r[i] == Sanitized(cs[i])
  {
    seq(|cs|, i requires 0 <= i < |cs| => Sanitized(cs[i]))
  }

  lemma MapSanitizedAppend(a: seq<Node>, b: seq<Node>)
    ensures MapSanitized(a + b) == MapSanitized(a) + MapSanitized(b)
  {
  }

  /** The sanitized children are the children with whitespace-only text removed
      (the rest in their order), each then sanitized. */
  lemma {:induction false} SanitizedFromIsFilterMap(n: Node, i: nat)
    requires n.Element? && i <= |n.children|
    ensures SanitizedFrom(n, i) == MapSanitized(DropBlankText(n.children[i..]))
    decreases |n.children| - i
  {
    if i < |n.children| {
      SanitizedFromIsFilterMap(n, i + 1);
      assert n.children[i..] == [n.children[i]] + n.children[i + 1..];
      DropBlankTextAppend([n.children[i]], n.children[i + 1..]);
    }
  }

  /** No element that has child elements keeps a whitespace-only text child, at any depth. */
  predicate Tidy(n: Node)
    decreases n
  {
    n.Element? ==>
      && (HasElementChild(n.children) ==> forall i :: 0 <= i < |n.children| ==> !IsBlankText(n.children[i]))
      && forall i :: 0 <= i < |n.children| ==> Tidy(n.children[i])
  }

  /** After sanitizing, the tree is tidy. */
  lemma {:induction false} SanitizedTidy(n: Node)
    ensures Tidy(Sanitized(n))
    decreases n, 1, 0
  {
    if n.Element? && HasElementChild(n.children) {
      SanitizedFromTidy(n, 0);
    } else if n.Element? {
      assert forall i :: 0 <= i < |n.children| ==> !n.children[i].Element?;
    }
  }

  lemma {:induction false} SanitizedFromTidy(n: Node, i: nat)
    requires n.Element? && i <= |n.children|
    ensures forall k :: 0 <= k < |SanitizedFrom(n, i)| ==>
      Tidy(SanitizedFrom(n, i)[k]) && !IsBlankText(SanitizedFrom(n, i)[k])
    decreases n, 0, |n.children| - i
  {
    if i < |n.children| {
      var c := n.children[i];
      SanitizedFromTidy(n, i + 1);
      if !IsBlankText(c) {
        SanitizedTidy(c);
      }
    }
  }

  /** Sanitizing keeps every child element: it has child elements exactly when the
      original had. */
  lemma {:induction false} SanitizedFromElements(n: Node, i: nat)
    requires n.Element? && i <= |n.children|
    ensures HasElementChild(SanitizedFrom(n, i)) <==> HasElementChild(n.children[i..])
    decreases |n.children| - i
  {
    if i < |n.children| {
      SanitizedFromElements(n, i + 1);
      var c := n.children[i];
      var rest := SanitizedFrom(n, i + 1);
      var head := if IsBlankText(c) then [] else [Sanitized(c)];
      assert SanitizedFrom(n, i) == head + rest;
      assert n.children[i..] == [c] + n.children[i + 1..];
      if HasElementChild(rest) {
        var k :| 0 <= k < |rest| && rest[k].Element?;
        assert (head + rest)[|head| + k] == rest[k];
      }
      if HasElementChild(n.children[i + 1..]) {
        var k :| 0 <= k < |n.children[i + 1..]| && n.children[i + 1..][k].Element?;
        assert n.children[i..][k + 1].Element?;
      }
      if c.Element? {
        assert (head + rest)[0].Element?;
      }
    }
  }

  /** A tidy tree is left as it is. */
  lemma {:induction false} TidyFixpoint(n: Node)
    requires Tidy(n)
    ensures Sanitized(n) == n
    decreases n, 1, 0
  {
    if n.Element? && HasElementChild(n.children) {
      TidyFromFixpoint(n, 0);
      assert n.children[0..] == n.children;
    }
  }

  lemma {:induction false} TidyFromFixpoint(n: Node, i: nat)
    requires n.Element? && i <= |n.children| && Tidy(n) && HasElementChild(n.children)
    ensures SanitizedFrom(n, i) == n.children[i..]
    decreases n, 0, |n.children| - i
  {
    if i < |n.children| {
      TidyFromFixpoint(n, i + 1);
      TidyFixpoint(n.children[i]);
      assert n.children[i..] == [n.children[i]] + n.children[i + 1..];
    }
  }

  /** Sanitizing twice is sanitizing once. */
  lemma SanitizedIdempotent(n: Node)
    ensures Sanitized(Sanitized(n)) == Sanitized(n)
  {
    SanitizedTidy(n);
    TidyFixpoint(Sanitized(n));
  }

  /** The removal pass of `sanitize_text_nodes`: every whitespace-only text child
      is dropped, the others stay in their order. */
  method RemoveBlankText(cs: seq<Node>) returns (kept: seq<Node>)
    ensures kept == DropBlankText(cs)
  {
    kept := [];
    var i := 0;
    while i < |cs|
      invariant 0 <= i <= |cs|
      invariant kept == DropBlankText(cs[..i])
    {
      var c := cs[i];
      assert cs[..i + 1] == cs[..i] + [c];
      DropBlankTextAppend(cs[..i], [c]);
      DropBlankTextOne(c);
      if !IsBlankText(c) {
        kept := kept + [c];
      }
      i := i + 1;
    }
    assert cs[..i] == cs;
  }

  /** `sanitize_text_nodes`: the whitespace-only text children are removed in one
      pass, then every remaining child element is sanitized recursively. */
  method SanitizeTextNodes(e: Node) returns (r: Node)
    requires e.Element?
    ensures r == Sanitized(e)
    decreases e, 1
  {
    if !HasElementChild(e.children) {
      return e;
    }
    var kept := RemoveBlankText(e.children);
    var cleaned := SanitizeEach(e, kept);
    SanitizedFromIsFilterMap(e, 0);
    assert e.children[0..] == e.children;
    r := e.(children := cleaned);
  }

  /** The loop of `sanitize_text_nodes` over the kept children: elements are
      sanitized recursively, the other nodes are kept as they are. */
  method SanitizeEach(e: Node, kept: seq<Node>) returns (cleaned: seq<Node>)
    requires e.Element?
    requires forall c :: c in kept ==> c in e.children
    ensures cleaned == MapSanitized(kept)
    decreases e, 0
  {
    cleaned := [];
    var j := 0;
    while j < |kept|
      invariant 0 <= j <= |kept|
      invariant cleaned == MapSanitized(kept[..j])
    {
      var c := kept[j];
      assert kept[..j + 1] == kept[..j] + [c];
      MapSanitizedAppend(kept[..j], [c]);
      if c.Element? {
        assert c in e.children;
        c := SanitizeTextNodes(c);
      }
      cleaned := cleaned + [c];
      j := j + 1;
    }
    assert kept[..j] == kept;
  }

  // ---------------------------------------------------------------------------
  // integrate_vsproject

  datatype IntegrateError =
    | ProjectFileMissing              // the opening `assert` on the project file
    | DepsFileExists(name: string)    // `<projectName>.NmPackageDeps.props` is already there
    | ProjectUnreadable(written: string)
      // the project file does not open or parse; the dependency file `written` is already on disk

  /** What integration writes: the dependency file (its name and its DOM), the
      rewritten project DOM and the text written to the project file. */
  datatype Integration = Integration(depsFileName: string, depsDocument: Node, project: Node, projectText: string)

  /** `<Import Project="<name>" />` */
  function ProjectImport(name: string): Node {
    Element("Import", map["Project" := name], [])
  }

  /** `<ItemGroup><Text Include="<name>" /></ItemGroup>` */
  function ProjectItemGroup(name: string): Node {
    Element("ItemGroup", map[], [Element("Text", map["Include" := name], [])])
  }

  /** The dependency file of a project is named after it. */
  function DepsFileName(projectName: string): string {
    projectName + DepsFileSuffix
  }

  /** The project file opened and parsed: a parsed document always has a root
      element, so `None` (or anything else) stands for `open` or `minidom.parse`
      raising. */
  predicate Readable(projectDoc: Option<Node>) {
    projectDoc.Some? && projectDoc.value.Element?
  }

  /** `integrate_vsproject` on the project's name, whether its file and the
      dependency file exist, the parsed project file (`None` when it does not open or
      parse), and `render`, which stands for
      `toprettyxml(indent="  ", encoding="utf-8").decode().splitlines()`. The
      dependency file is written before the project is parsed. */
  function IntegrationOf(projectName: string, projectExists: bool, depsExists: bool,
                         projectDoc: Option<Node>, render: Node -> seq<string>)
    : Result<Integration, IntegrateError>
  {
    var name := DepsFileName(projectName);
    if !projectExists then Err(ProjectFileMissing)
    else if depsExists then Err(DepsFileExists(name))
    else if !Readable(projectDoc) then Err(ProjectUnreadable(name))
    else
      var withImport := AppendChild(projectDoc.value, ProjectImport(name));
      var withGroup := AppendChild(withImport, ProjectItemGroup(name));
      var project := Sanitized(withGroup);
      Ok(Integration(name, DocumentOf([]), project, WrittenText(render(project))))
  }

  /** `integrate_vsproject`: writes the empty dependency file, parses the project,
      appends the `Import` and the `ItemGroup` to the root, sanitizes it and writes
      the rewritten lines back. */
  method IntegrateVsProject(projectName: string, projectExists: bool, depsExists: bool,
                            projectDoc: Option<Node>, render: Node -> seq<string>)
    returns (r: Result<Integration, IntegrateError>)
    ensures r == IntegrationOf(projectName, projectExists, depsExists, projectDoc, render)
  {
    if !projectExists {
      return Err(ProjectFileMissing);
    }
    var name := DepsFileName(projectName);
    if depsExists {
      return Err(DepsFileExists(name));
    }
    var deps := Serialize({});
    EmptyDocumentOf();
    if !Readable(projectDoc) {
      return Err(ProjectUnreadable(name));
    }
    var project := AppendChild(projectDoc.value, ProjectImport(name));
    var group := ProjectItemGroup(name);
    project := AppendChild(project, group);
    project := SanitizeTextNodes(project);
    var text := WriteProjectLines(render(project));
    return Ok(Integration(name, deps, project, text));
  }

  /** The empty dependency file, as `serialize()` writes it. */
  lemma EmptyDocumentOf()
    ensures DepsDocument({}) == DocumentOf([])
  {
    EmptyDocument();
  }

  /** Appending two tidy elements to an element and sanitizing it: the old children
      are sanitized and the new ones kept as they are, at the end. */
  lemma AppendedSanitized(root: Node, imp: Node, grp: Node)
    requires root.Element? && imp.Element? && grp.Element? && Tidy(imp) && Tidy(grp)
    ensures Sanitized(root.(children := root.children + [imp, grp])).children
      == MapSanitized(DropBlankText(root.children)) + [imp, grp]
  {
    var n := root.(children := root.children + [imp, grp]);
    assert n.children[|root.children|].Element?;
    SanitizedFromIsFilterMap(n, 0);
    assert n.children[0..] == root.children + [imp, grp];
    DropAppendedElements(root.children, imp, grp);
    MapAppendedTidy(DropBlankText(root.children), imp, grp);
  }

  lemma DropAppendedElements(cs: seq<Node>, a: Node, b: Node)
    requires a.Element? && b.Element?
    ensures DropBlankText(cs + [a, b]) == DropBlankText(cs) + [a, b]
  {
    DropBlankTextAppend(cs, [a, b]);
    assert [b][1..] == [];
    assert DropBlankText([b]) == [b];
    assert [a, b][1..] == [b];
    assert DropBlankText([a, b]) == [a] + DropBlankText([b]);
  }

  lemma MapAppendedTidy(cs: seq<Node>, a: Node, b: Node)
    requires Tidy(a) && Tidy(b)
    ensures MapSanitized(cs + [a, b]) == MapSanitized(cs) + [a, b]
  {
    TidyFixpoint(a);
    TidyFixpoint(b);
    MapSanitizedAppend(cs, [a, b]);
  }

  /** Integration refuses exactly when the project file is missing, the dependency
      file already exists, or the project does not parse; otherwise it writes a
      dependency file of no packages, and the project keeps its root and its
      non-blank children in order, followed by the new `Import` and `ItemGroup`, and
      its text holds no `"/>`. */
  lemma IntegrationShape(projectName: string, projectExists: bool, depsExists: bool,
                         projectDoc: Option<Node>, render: Node -> seq<string>)
    ensures var r := IntegrationOf(projectName, projectExists, depsExists, projectDoc, render);
      var name := projectName + ".NmPackageDeps.props";
      && (r.Ok? <==> projectExists && !depsExists && Readable(projectDoc))
      && (!projectExists ==> r == Err(ProjectFileMissing))
      && (projectExists && depsExists ==> r == Err(DepsFileExists(name)))
      && (projectExists && !depsExists && !Readable(projectDoc) ==> r == Err(ProjectUnreadable(name)))
      && (r.Ok? ==>
        var root := projectDoc.value;
        && r.value.depsFileName == name
        && ReadImports(r.value.depsDocument.children) == Ok({})
        && r.value.project.tag == root.tag && r.value.project.attrs == root.attrs
        && r.value.project.children
           == MapSanitized(DropBlankText(root.children)) + [ProjectImport(name), ProjectItemGroup(name)]
        && r.value.projectText == WrittenText(render(r.value.project))
        && NoTightClose(r.value.projectText))
  {
    if projectExists && !depsExists && Readable(projectDoc) {
      var root := projectDoc.value;
      var name := DepsFileName(projectName);
      EmptyDocument();
      EmptyDocumentOf();
      var imp, grp := ProjectImport(name), ProjectItemGroup(name);
      assert AppendChild(AppendChild(root, imp), grp) == root.(children := root.children + [imp, grp]);
      assert Tidy(grp.children[0]);
      AppendedSanitized(root, imp, grp);
      WrittenTextClean(render(Sanitized(AppendChild(AppendChild(root, imp), grp))));
    }
  }

  /** A project that does not parse leaves its dependency file behind, so running
      the integration again refuses with `DepsFileExists` for that very file. */
  lemma UnreadableProjectBlocksRetry(projectName: string, projectDoc: Option<Node>, render: Node -> seq<string>,
                                     retryDoc: Option<Node>, retryRender: Node -> seq<string>)
    requires IntegrationOf(projectName, true, false, projectDoc, render).Err?
    ensures IntegrationOf(projectName, true, false, projectDoc, render)
      == Err(ProjectUnreadable(DepsFileName(projectName)))
    ensures IntegrationOf(projectName, true, true, retryDoc, retryRender)
      == Err(DepsFileExists(DepsFileName(projectName)))
  {
  }

  // ---------------------------------------------------------------------------
  // The line rewrite

  /** `line.replace('"/>', '" />')` */
  function FixSelfClosing(line: string): string {
    ReplaceAll(line, "\"/>", "\" />")
  }

  /** `s` holds no `"/>`. */
  predicate NoTightClose(s: string) {
    forall i :: 0 <= i < |s| - 2 ==> !(s[i] == '"' && s[i + 1] == '/' && s[i + 2] == '>')
  }

  /** A rewritten line starts with `/>` only where the original did. */
  lemma FixedHead(t: string)
    ensures var r := FixSelfClosing(t);
      |r| >= 2 && r[0] == '/' && r[1] == '>' ==> |t| >= 2 && t[0] == '/' && t[1] == '>'
  {
    var pat, rep := "\"/>", "\" />";
    if |t| >= |pat| && t[..|pat|] != pat {
      var t1 := t[1..];
      assert FixSelfClosing(t) == [t[0]] + FixSelfClosing(t1);
      if |t1| >= |pat| && t1[..|pat|] != pat {
        assert FixSelfClosing(t1) == [t1[0]] + FixSelfClosing(t1[1..]);
      } else if |t1| >= |pat| {
        assert FixSelfClosing(t1) == rep + FixSelfClosing(t1[|pat|..]);
      }
    } else if |t| >= |pat| {
      assert FixSelfClosing(t) == rep + FixSelfClosing(t[|pat|..]);
    }
  }

  /** After the rewrite no `"/>` is left on the line. */
  lemma {:induction false} FixSelfClosingClean(line: string)
    ensures NoTightClose(FixSelfClosing(line))
    decreases |line|
  {
    var pat, rep := "\"/>", "\" />";
    if |line| < |pat| {
    } else if line[..|pat|] == pat {
      var rest := FixSelfClosing(line[|pat|..]);
      FixSelfClosingClean(line[|pat|..]);
      var r := rep + rest;
      assert FixSelfClosing(line) == r;
      forall i | 0 <= i < |r| - 2
        ensures !(r[i] == '"' && r[i + 1] == '/' && r[i + 2] == '>')
      {
        if i >= |rep| {
          assert r[i] == rest[i - |rep|] && r[i + 1] == rest[i - |rep| + 1] && r[i + 2] == rest[i - |rep| + 2];
        }
      }
    } else {
      var t := line[1..];
      var rest := FixSelfClosing(t);
      FixSelfClosingClean(t);
      FixedHead(t);
      var r := [line[0]] + rest;
      assert FixSelfClosing(line) == r;
      assert exists k :: 0 <= k < 3 && line[k] != pat[k];
      forall i | 0 <= i < |r| - 2
        ensures !(r[i] == '"' && r[i + 1] == '/' && r[i + 2] == '>')
      {
        if i > 0 {
          assert r[i] == rest[i - 1] && r[i + 1] == rest[i] && r[i + 2] == rest[i + 1];
        }
      }
    }
  }

  /** A line without `"/>` is written unchanged. */
  lemma {:induction false} FixSelfClosingKeeps(line: string)
    requires NoTightClose(line)
    ensures FixSelfClosing(line) == line
    decreases |line|
  {
    if |line| >= 3 {
      assert line[..3] != "\"/>" by {
        assert !(line[0] == '"' && line[1] == '/' && line[2] == '>');
      }
      assert NoTightClose(line[1..]) by {
        forall i | 0 <= i < |line[1..]| - 2
          ensures !(line[1..][i] == '"' && line[1..][i + 1] == '/' && line[1..][i + 2] == '>')
        {
          assert line[1..][i] == line[i + 1];
        }
      }
      FixSelfClosingKeeps(line[1..]);
      assert line == [line[0]] + line[1..];
    }
  }

  /** The text of the written project file: every line rewritten and ended by a
      newline. */
  function WrittenText(lines: seq<string>): string {
    if lines == [] then "" else WrittenText(lines[..|lines| - 1]) + FixSelfClosing(lines[|lines| - 1]) + "\n"
  }

  /** The write loop of `integrate_vsproject` over the pretty-printed lines. */
  method WriteProjectLines(lines: seq<string>) returns (written: string)
    ensures written == WrittenText(lines)
  {
    written := "";
    var i := 0;
    while i < |lines|
      invariant 0 <= i <= |lines|
      invariant written == WrittenText(lines[..i])
    {
      assert lines[..i + 1][..i] == lines[..i];
      var line := FixSelfClosing(lines[i]);
      written := written + line + "\n";
      i := i + 1;
    }
    assert lines[..i] == lines;
  }

  lemma WrittenTextEnds(lines: seq<string>)
    ensures WrittenText(lines) == [] || WrittenText(lines)[|WrittenText(lines)| - 1] == '\n'
  {
  }

  /** The written project file holds no `"/>` anywhere. */
  lemma {:induction false} WrittenTextClean(lines: seq<string>)
    ensures NoTightClose(WrittenText(lines))
    decreases |lines|
  {
    if lines != [] {
      var n := |lines| - 1;
      var prev := WrittenText(lines[..n]);
      var line := FixSelfClosing(lines[n]);
      WrittenTextClean(lines[..n]);
      FixSelfClosingClean(lines[n]);
      WrittenTextEnds(lines[..n]);
      var r := prev + line + "\n";
      var p, l := |prev|, |line|;
      assert WrittenText(lines) == r;
      forall i | 0 <= i < |r| - 2
        ensures !(r[i] == '"' && r[i + 1] == '/' && r[i + 2] == '>')
      {
        if i + 2 < p {
          assert r[i] == prev[i] && r[i + 1] == prev[i + 1] && r[i + 2] == prev[i + 2];
        } else if i >= p && i + 2 < p + l {
          var k := i - p;
          assert r[i] == line[k] && r[i + 1] == line[k + 1] && r[i + 2] == line[k + 2];
        } else if i >= p {
          assert r[i + 2] == '\n';
        } else {
          assert r[p - 1] == prev[p - 1] == '\n';
        }
      }
    }
  }

  // ---------------------------------------------------------------------------
  // Integrate

  datatype SaveError =
    | FindFailed(find: FindError)
    | NotAFile(path: string)             // `VsProject(...)` on a glob match that is not a regular file
    | IntegrateFailed(integrate: IntegrateError)

  /** `Integrate(path)`: resolve the project file, open it as a `VsProject` (which
      insists on a regular file), then integrate into it. `matchIsFile` says whether
      the single `*.vcxproj` entry of a directory is a regular file; the project name
      is the file's stem; whether the dependency file exists and the parsed project
      come from the filesystem. */
  function Integrate(f: PathFacts, matchIsFile: bool, depsExists: bool,
                     projectDoc: Option<Node>, render: Node -> seq<string>): Result<Integration, SaveError>
  {
    match FindVcxprojAsWritten(f)
    case Err(e) => Err(FindFailed(e))
    case Ok(file) =>
      if !(f.isFile || matchIsFile) then Err(NotAFile(file))
      else
        match IntegrationOf(Stem(Name(file)), true, depsExists, projectDoc, render)
        case Err(e) => Err(IntegrateFailed(e))
        case Ok(i) => Ok(i)
  }

  /** Integration happens only into a resolved regular project file that parses,
      under that file's name, and the text it writes holds no `"/>`; a project that
      does not parse fails after its dependency file is written. */
  lemma IntegrateResolves(f: PathFacts, matchIsFile: bool, depsExists: bool,
                          projectDoc: Option<Node>, render: Node -> seq<string>)
    ensures var r := Integrate(f, matchIsFile, depsExists, projectDoc, render);
      var found := FindVcxprojAsWritten(f);
      var regular := f.isFile || matchIsFile;
      && (r.Ok? <==> found.Ok? && regular && !depsExists && Readable(projectDoc))
      && (found.Ok? && !regular ==> r == Err(NotAFile(found.value)))
      && (found.Ok? && regular && !depsExists && !Readable(projectDoc) ==>
            r == Err(IntegrateFailed(ProjectUnreadable(Stem(Name(found.value)) + ".NmPackageDeps.props"))))
      && (r.Ok? ==>
            && r.value.depsFileName == Stem(Name(found.value)) + ".NmPackageDeps.props"
            && NoTightClose(r.value.projectText))
  {
    if FindVcxprojAsWritten(f).Ok? {
      IntegrationShape(Stem(Name(FindVcxprojAsWritten(f).value)), true, depsExists, projectDoc, render);
    }
  }
}
