/** The deterministic parts of NmPackage/__init__.py: the MSBuild error format and
    exception handler, the `VsProject` name and folder derivation, and the older
    `Integrate`, which appends the dependency file's `Import` and `ItemGroup` to
    the project's first `Project` element and drops blank lines from the rendered
    text. The logger copy in this file is `DebugLogs.DebugLog.ForPackageModule`. */
module NmPackageInit {
  import opened Wrappers
  import opened Strings
  import opened Xml
  import opened WindowsPaths
  import opened DepsFileFormat
  import Save
  import DebugLogs

  // ---------------------------------------------------------------------------
  // MsBuild.Error and MsBuildExceptionHandle

  /** `MsBuild.Error(msg)`: what it writes to standard error. */
  function MsBuildError(msg: string): (r: string)
    ensures StartsWith(r, "Error: ") && EndsWith(r, "\n")
    ensures |r| == 8 + |msg| && r[7..|r| - 1] == msg
  {
    var r := "Error: " + msg + "\n";
    assert r[..7] == "Error: ";
    r
  }

  /** `MsBuildExceptionHandle(debug)`: the exception hook MSBuild tasks install. */
  datatype MsBuildExceptionHandle = MsBuildExceptionHandle(debug: bool) {
    /** `exception_handler`: the MSBuild error line for `typeName : message`,
        followed by the traceback in debug mode only. */
    function Report(typeName: string, message: string, traceback: string): (r: string)
      ensures StartsWith(r, MsBuildError(typeName + " : " + message))
      ensures debug ==> r == MsBuildError(typeName + " : " + message) + traceback
      ensures !debug ==> r == MsBuildError(typeName + " : " + message)
    {
      var line := MsBuildError(typeName + " : " + message);
      var r := line + (if debug then traceback else "");
      assert r[..|line|] == line;
      r
    }
  }

  /** The command-line handler of NmPackage/debug.py and the MSBuild handler write
      the same error line. */
  lemma HandlersAgree(typeName: string, message: string)
    ensures DebugLogs.ErrorLine(typeName, message) == MsBuildError(typeName + " : " + message)
  {
    assert "Error: " + typeName + " : " + message + "\n" == "Error: " + (typeName + " : " + message) + "\n";
  }

  // ---------------------------------------------------------------------------
  // VsProject

  /** A Visual Studio project, given by its `*.vcxproj` file. */
  datatype VsProject = VsProject(vcxprojFile: string) {
    /** `path()`: the parts of the folder holding the project file. */
    function Folder(): (r: seq<string>)
      ensures |r| == if Parts(vcxprojFile) == [] then 0 else |Parts(vcxprojFile)| - 1
      ensures r == Parts(vcxprojFile)[..|r|]
    {
      ParentParts(vcxprojFile)
    }

    /** `projectName()`: the file name without its extension. */
    function ProjectName(): (r: string)
      ensures r + Suffix(Name(vcxprojFile)) == Name(vcxprojFile)
    {
      StemSuffix(Name(vcxprojFile));
      Stem(Name(vcxprojFile))
    }
  }

  datatype VsProjectError = NotAnExistingFile(path: string)

  /** `VsProject(vcxproj_file)`: construction fails unless the file exists. */
  function OpenVsProject(vcxprojFile: string, isFile: bool): (r: Result<VsProject, VsProjectError>)
    ensures r.Ok? <==> isFile
    ensures r.Ok? ==> r.value.vcxprojFile == vcxprojFile
    ensures r.Err? ==> r.error == NotAnExistingFile(vcxprojFile)
  {
    if !isFile then Err(NotAnExistingFile(vcxprojFile)) else Ok(VsProject(vcxprojFile))
  }

  // ---------------------------------------------------------------------------
  // Integrate

  /** `os.linesep.join(lines)` */
  function JoinLines(sep: string, lines: seq<string>): string
    decreases |lines|
  {
    if lines == [] then ""
    else if |lines| == 1 then lines[0]
    else lines[0] + sep + JoinLines(sep, lines[1..])
  }

  /** `[s for s in lines if s.strip()]` */
  function NonBlankLines(lines: seq<string>): (r: seq<string>)
    ensures forall i :: 0 <= i < |r| ==> !IsBlank(r[i])
    ensures |r| <= |lines|
    decreases |lines|
  {
    if lines == [] then []
    else (if IsBlank(lines[0]) then [] else [lines[0]]) + NonBlankLines(lines[1..])
  }

  /** The filter keeps exactly the non-blank lines. */
  lemma {:induction false} NonBlankLinesMembers(lines: seq<string>)
    ensures forall s :: s in NonBlankLines(lines) <==> s in lines && !IsBlank(s)
    decreases |lines|
  {
    if lines != [] {
      NonBlankLinesMembers(lines[1..]);
      assert lines == [lines[0]] + lines[1..];
    }
  }

  /** Filtering a concatenation filters each part. */
  lemma {:induction false} NonBlankLinesAppend(a: seq<string>, b: seq<string>)
    ensures NonBlankLines(a + b) == NonBlankLines(a) + NonBlankLines(b)
    decreases |a|
  {
    if a != [] {
      assert (a + b)[1..] == a[1..] + b;
      NonBlankLinesAppend(a[1..], b);
    } else {
      assert a + b == b;
    }
  }

  /** Lines without blank ones are left as they are. */
  lemma {:induction false} NonBlankLinesKeepsClean(lines: seq<string>)
    requires forall i :: 0 <= i < |lines| ==> !IsBlank(lines[i])
    ensures NonBlankLines(lines) == lines
    decreases |lines|
  {
    if lines != [] {
      NonBlankLinesKeepsClean(lines[1..]);
    }
  }

  /** Filtering twice is filtering once. */
  lemma NonBlankLinesIdempotent(lines: seq<string>)
    ensures NonBlankLines(NonBlankLines(lines)) == NonBlankLines(lines)
  {
    NonBlankLinesKeepsClean(NonBlankLines(lines));
  }

  /** What the older `Integrate` produces: the name of the dependency file it copies
      from the package's template, the updated project DOM, and the project text
      it writes. */
  datatype LegacyIntegration = LegacyIntegration(depsFileName: string, project: Node, projectText: string)

  datatype LegacyIntegrateError =
    | NotInProjectFolder                // the two opening `assert`s on the folder and working directory
    | ProjectUnreadable(copied: string) // `minidom.parse` fails; the dependency file `copied` is already in place
    | NoProjectElement(copied: string)  // `getElementsByTagName("Project")[0]` on an empty list, after the copy

  /** The older `Integrate(vsProject)`, given whether the project folder is the
      working directory, the parsed project document (`None` when the project does
      not open or parse), and `render`, which stands for
      `toprettyxml(indent="  ").splitlines()`. The dependency file is copied before
      the project is parsed. Both nodes go to the first `Project` element in
      document order, and the lines are joined with `lineSep` (`os.linesep`) once
      the blank ones are dropped. */
  function LegacyIntegrationOf(project: VsProject, inProjectFolder: bool, doc: Option<Node>,
                               render: Node -> seq<string>, lineSep: string): Result<LegacyIntegration, LegacyIntegrateError>
  {
    if !inProjectFolder then Err(NotInProjectFolder)
    else
      var target := Save.DepsFileName(project.ProjectName());
      if doc.None? then Err(ProjectUnreadable(target))
      else match FindFirst(doc.value, "Project")
      case None => Err(NoProjectElement(target))
      case Some(p) =>
        AtAppendAt(doc.value, p, Save.ProjectImport(target));
        var updated := AppendAt(AppendAt(doc.value, p, Save.ProjectImport(target)), p, Save.ProjectItemGroup(target));
        Ok(LegacyIntegration(target, updated, JoinLines(lineSep, NonBlankLines(render(updated)))))
  }

  /** `Integrate(vsProject)`: the `Project` element is looked up again before the
      second append, as the source does; it is the same element. */
  method Integrate(project: VsProject, inProjectFolder: bool, doc: Option<Node>,
                   render: Node -> seq<string>, lineSep: string) returns (r: Result<LegacyIntegration, LegacyIntegrateError>)
    ensures r == LegacyIntegrationOf(project, inProjectFolder, doc, render, lineSep)
  {
    if !inProjectFolder {
      return Err(NotInProjectFolder);
    }
    var targetFile := project.ProjectName() + DepsFileSuffix;
    if doc.None? {
      return Err(ProjectUnreadable(targetFile));
    }
    var projNode := FindFirst(doc.value, "Project");
    if projNode.None? {
      return Err(NoProjectElement(targetFile));
    }
    var projDom := AppendAt(doc.value, projNode.value, Save.ProjectImport(targetFile));
    FindFirstAfterAppend(doc.value, "Project", Save.ProjectImport(targetFile));
    AtAppendAt(doc.value, projNode.value, Save.ProjectImport(targetFile));
    projNode := FindFirst(projDom, "Project");
    projDom := AppendAt(projDom, projNode.value, Save.ProjectItemGroup(targetFile));
    var lines := NonBlankLines(render(projDom));
    r := Ok(LegacyIntegration(targetFile, projDom, JoinLines(lineSep, lines)));
  }

  /** The first `Project` element in document order gains the `Import` and then the
      `ItemGroup`, both naming `<projectName>.NmPackageDeps.props`; its ancestors
      keep their tag, attributes and number of children; every node off the path
      to it is unchanged; and the text has no blank line. Without a readable
      project or a `Project` element the call fails after the copy. */
  lemma LegacyIntegrationShape(project: VsProject, inProjectFolder: bool, doc: Option<Node>,
                               render: Node -> seq<string>, lineSep: string)
    ensures var r := LegacyIntegrationOf(project, inProjectFolder, doc, render, lineSep);
      var target := project.ProjectName() + DepsFileSuffix;
      && (r.Ok? <==> inProjectFolder && doc.Some? && FindFirst(doc.value, "Project").Some?)
      && (!inProjectFolder ==> r == Err(NotInProjectFolder))
      && (inProjectFolder && doc.None? ==> r == Err(ProjectUnreadable(target)))
      && (inProjectFolder && doc.Some? && (forall q :: !TagAt(doc.value, q, "Project")) ==> r == Err(NoProjectElement(target)))
      && (r.Ok? ==>
            var d := doc.value;
            var p := FindFirst(d, "Project").value;
            && TagAt(d, p, "Project")
            && (forall q :: Before(q, p) ==> !TagAt(d, q, "Project"))
            && r.value.depsFileName == target
            && ValidPath(r.value.project, p)
            && At(r.value.project, p).Element? && At(r.value.project, p).tag == "Project"
            && At(r.value.project, p).attrs == At(d, p).attrs
            && At(r.value.project, p).children
               == At(d, p).children + [Save.ProjectImport(target), Save.ProjectItemGroup(target)]
            && (forall q :: IsPrefix(q, p) && |q| < |p| ==>
                  && ValidPath(r.value.project, q) && ValidPath(d, q)
                  && At(r.value.project, q).Element? && At(d, q).Element?
                  && At(r.value.project, q).tag == At(d, q).tag
                  && At(r.value.project, q).attrs == At(d, q).attrs
                  && |At(r.value.project, q).children| == |At(d, q).children|)
            && (forall q :: ValidPath(d, q) && !IsPrefix(q, p) ==>
                  ValidPath(r.value.project, q) && At(r.value.project, q) == At(d, q))
            && r.value.projectText == JoinLines(lineSep, NonBlankLines(render(r.value.project))))
  {
    if inProjectFolder && doc.Some? {
      var d := doc.value;
      FindFirstComplete(d, "Project");
      if FindFirst(d, "Project").Some? {
        var p := FindFirst(d, "Project").value;
        var target := project.ProjectName() + DepsFileSuffix;
        AppendTwiceAt(d, p, Save.ProjectImport(target), Save.ProjectItemGroup(target));
        forall q | Before(q, p)
          ensures !TagAt(d, q, "Project")
        {
          FindFirstIsFirst(d, "Project", q);
        }
      }
    }
  }
}
