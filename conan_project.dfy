/** The project-folder rule of conan_vs_integration/__init__.py: `VsProject._set_path`
    accepts a directory holding exactly one `*.vcxproj` file and a `conanfile.txt`,
    and records the folder and that project file. The file system is given as facts
    about the folder. */
module ConanProject {
  import opened Wrappers
  import opened WindowsPaths

  /** One entry of `path.iterdir()`: its name and whether it is a regular file. */
  datatype FolderEntry = FolderEntry(name: string, isFile: bool)

  /** What `_set_path` learns from the file system about `path`. */
  datatype FolderFacts = FolderFacts(path: string, isDir: bool, entries: seq<FolderEntry>, conanfileExists: bool)

  datatype ConanProjectError =
    | NotADirectory(path: string)
    | NoProjectFile(path: string)
    | MultipleProjectFiles(path: string)
    | ConanfileMissing(path: string)
    | NoAbsoluteAttribute  // `path.absolute` on a `str` argument raises `AttributeError`

  const ProjectSuffix := ".vcxproj"

  predicate IsProjectFile(e: FolderEntry) {
    e.isFile && Suffix(e.name) == ProjectSuffix
  }

  /** `[x for x in path.iterdir() if x.is_file() and x.suffix == '.vcxproj']` */
  function ProjectFiles(entries: seq<FolderEntry>): (r: seq<FolderEntry>)
    ensures |r| <= |entries|
    ensures forall i :: 0 <= i < |r| ==> IsProjectFile(r[i]) && r[i] in entries
    decreases |entries|
  {
    if entries == [] then []
    else (if IsProjectFile(entries[0]) then [entries[0]] else []) + ProjectFiles(entries[1..])
  }

  /** The filter keeps exactly the project files of the folder. */
  lemma {:induction false} ProjectFilesMembers(entries: seq<FolderEntry>)
    ensures forall e :: e in ProjectFiles(entries) <==> e in entries && IsProjectFile(e)
    decreases |entries|
  {
    if entries != [] {
      ProjectFilesMembers(entries[1..]);
      assert entries == [entries[0]] + entries[1..];
    }
  }

  /** A dot-free tail does not move the last dot. */
  lemma {:induction false} LastDotDotFreeTail(a: string, b: string)
    requires forall j :: 0 <= j < |b| ==> b[j] != '.'
    ensures LastDot(a + b) == LastDot(a)
    decreases |b|
  {
    if b != [] {
      var b' := b[..|b| - 1];
      assert (a + b)[..|a + b| - 1] == a + b';
      LastDotDotFreeTail(a, b');
    } else {
      assert a + b == a;
    }
  }

  /** `<stem>.<ext>` with a dot-free, non-empty `ext` has the suffix `.<ext>` unless
      the stem is empty (a name starting with its only dot has no suffix). */
  lemma SuffixOfDotted(stem: string, ext: string)
    requires ext != [] && forall j :: 0 <= j < |ext| ==> ext[j] != '.'
    ensures Suffix(stem + "." + ext) == if stem == "" then "" else "." + ext
  {
    var name := stem + "." + ext;
    LastDotDotFreeTail(stem + ".", ext);
    assert (stem + ".")[..|stem + "."| - 1] == stem;
    assert LastDot(stem + ".") == |stem|;
    assert name[|stem|..] == "." + ext;
  }

  /** `<stem>.vcxproj` has the project suffix exactly when the stem is not empty:
      a file named just `.vcxproj` is not a project file. */
  lemma ProjectSuffixOf(stem: string)
    ensures Suffix(stem + ProjectSuffix) == if stem == "" then "" else ProjectSuffix
  {
    assert stem + ProjectSuffix == stem + "." + "vcxproj";
    SuffixOfDotted(stem, "vcxproj");
  }

  /** The comparison is case-sensitive: `a.VCXPROJ` is not a project file. */
  lemma UpperCaseIsNotAProject()
    ensures Suffix("a.VCXPROJ") != ProjectSuffix
  {
    assert "a.VCXPROJ" == "a" + "." + "VCXPROJ";
    SuffixOfDotted("a", "VCXPROJ");
    assert ("." + "VCXPROJ")[1] != ProjectSuffix[1];
  }

  /** The outcome of `_set_path`: the one project file, or the first check that fails,
      in the order the source makes them. */
  function SetPathOutcome(facts: FolderFacts): (r: Result<FolderEntry, ConanProjectError>)
    ensures r.Ok? <==> facts.isDir && |ProjectFiles(facts.entries)| == 1 && facts.conanfileExists
    ensures r.Ok? ==> r.value in facts.entries && IsProjectFile(r.value)
    ensures r.Ok? ==> forall e :: e in facts.entries && IsProjectFile(e) ==> e == r.value
    ensures !facts.isDir ==> r == Err(NotADirectory(facts.path))
    ensures facts.isDir && ProjectFiles(facts.entries) == [] ==> r == Err(NoProjectFile(facts.path))
    ensures facts.isDir && |ProjectFiles(facts.entries)| > 1 ==> r == Err(MultipleProjectFiles(facts.path))
    ensures facts.isDir && |ProjectFiles(facts.entries)| == 1 && !facts.conanfileExists
      ==> r == Err(ConanfileMissing(facts.path))
  {
    ProjectFilesMembers(facts.entries);
    var projects := ProjectFiles(facts.entries);
    if !facts.isDir then Err(NotADirectory(facts.path))
    else if |projects| == 0 then Err(NoProjectFile(facts.path))
    else if |projects| > 1 then Err(MultipleProjectFiles(facts.path))
    else if !facts.conanfileExists then Err(ConanfileMissing(facts.path))
    else
      assert projects == [projects[0]];
      Ok(projects[0])
  }

  /** `_set_path` as written: the first three messages format `path.absolute`, the
      attribute of the ARGUMENT. `argIsPath` says whether the caller passed a `Path`;
      for a `str`, as `os.getcwd()` is, building those messages raises
      `AttributeError` instead of the intended exception. */
  function SetPathOutcomeAsWritten(facts: FolderFacts, argIsPath: bool): Result<FolderEntry, ConanProjectError> {
    var projects := ProjectFiles(facts.entries);
    if !facts.isDir then (if argIsPath then Err(NotADirectory(facts.path)) else Err(NoAbsoluteAttribute))
    else if |projects| == 0 then (if argIsPath then Err(NoProjectFile(facts.path)) else Err(NoAbsoluteAttribute))
    else if |projects| > 1 then (if argIsPath then Err(MultipleProjectFiles(facts.path)) else Err(NoAbsoluteAttribute))
    else SetPathOutcome(facts)
  }

  /** The code as written agrees with the intended outcome for a `Path` argument,
      and for a `str` argument exactly when the folder holds one project file. */
  lemma SetPathAsWrittenDiffers(facts: FolderFacts, argIsPath: bool)
    ensures SetPathOutcomeAsWritten(facts, true) == SetPathOutcome(facts)
    ensures SetPathOutcomeAsWritten(facts, argIsPath) != SetPathOutcome(facts)
      <==> !argIsPath && (!facts.isDir || |ProjectFiles(facts.entries)| != 1)
    ensures SetPathOutcomeAsWritten(facts, argIsPath) != SetPathOutcome(facts)
      ==> SetPathOutcomeAsWritten(facts, argIsPath) == Err(NoAbsoluteAttribute)
  {
  }

  /** `VsProject(os.getcwd())` in a folder with two project files: an
      `AttributeError`, not the "contains multiple" exception. */
  lemma CwdWithTwoProjectsExample()
    ensures var facts := FolderFacts("C:\\work", true,
                                     [FolderEntry("a.vcxproj", true), FolderEntry("b.vcxproj", true)], true);
      && SetPathOutcomeAsWritten(facts, false) == Err(NoAbsoluteAttribute)
      && SetPathOutcome(facts) == Err(MultipleProjectFiles("C:\\work"))
  {
    var a, b := FolderEntry("a.vcxproj", true), FolderEntry("b.vcxproj", true);
    ProjectSuffixOf("a");
    ProjectSuffixOf("b");
    assert "a" + ProjectSuffix == a.name && "b" + ProjectSuffix == b.name;
    assert [a, b][1..] == [b];
    assert ProjectFiles([a, b]) == [a, b];
  }

  /** conan_vs_integration's `VsProject`: its folder and its project file (the folder
      joined with `projectFile.name`). */
  class VsProject {
    var path: string
    var projectFile: FolderEntry

    constructor ()
    {
    }

    /** `_set_path(path)`: `self.path` is assigned first, `self.projectFile` once the
        single project file is found; any failed check raises. */
    method SetPath(facts: FolderFacts) returns (r: Result<(), ConanProjectError>)
      modifies this
      ensures path == facts.path
      ensures r.Ok? <==> SetPathOutcome(facts).Ok?
      ensures r.Err? ==> r.error == SetPathOutcome(facts).error
      ensures r.Ok? ==> projectFile == SetPathOutcome(facts).value
      ensures facts.isDir && |ProjectFiles(facts.entries)| == 1 ==> projectFile == ProjectFiles(facts.entries)[0]
    {
      path := facts.path;
      if !facts.isDir {
        return Err(NotADirectory(facts.path));
      }
      var projects := ProjectFiles(facts.entries);
      if |projects| == 0 {
        return Err(NoProjectFile(facts.path));
      } else if |projects| > 1 {
        return Err(MultipleProjectFiles(facts.path));
      } else {
        projectFile := projects[0];
      }
      if !facts.conanfileExists {
        return Err(ConanfileMissing(facts.path));
      }
      r := Ok(());
    }
  }

  /** `VsProject(path)`: a new project for an acceptable folder, the error otherwise. */
  method NewVsProject(facts: FolderFacts) returns (r: Result<VsProject, ConanProjectError>)
    ensures r.Ok? <==> SetPathOutcome(facts).Ok?
    ensures r.Err? ==> r.error == SetPathOutcome(facts).error
    ensures r.Ok? ==> fresh(r.value) && r.value.path == facts.path && r.value.projectFile == SetPathOutcome(facts).value
  {
    var p := new VsProject();
    var outcome := p.SetPath(facts);
    if outcome.Err? {
      return Err(outcome.error);
    }
    r := Ok(p);
  }
}
