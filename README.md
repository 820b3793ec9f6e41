# NmPkg dependency files, project integration and logging, in Dafny

NmPkg is a small package manager for Visual Studio (MSBuild) projects. Every project
lists the packages it depends on in a property sheet next to its `*.vcxproj` file,
`<ProjectName>.NmPackageDeps.props`. That sheet has a `Project` root, a banner
comment, and one `Import` per package pointing at
`$(NmPackageDir)\<packageId>\<versionId>\NmPackage.props`. This project models the
deterministic core around that file and proves properties about it:

- `DepsFileFormat` (deps_file_format.dfy) models `NmPackageDepsFileFormat` of
  NmPackage/save.py.
  - It maps a package to its import path and back.
  - `Serialize` builds the document, with the imports sorted by qualified id.
  - `Deserialize` reads a document back and rejects anything unexpected.
  - The round trip `deserialize(serialize(S)) == S` is proved for every set of
    valid ids.
- `Save` (save.dfy) models the rest of NmPackage/save.py:
  - `find_vcxproj`, both as written and as intended;
  - `sanitize_text_nodes` (the whitespace-text clean-up, a method on the tree);
  - `integrate_vsproject` (appends an `Import` and an `ItemGroup`, then rewrites
    `"/>` to `" />` line by line);
  - `Integrate(path)`, which chains the two.
- `NmPackageInit` (nmpackage_init.dfy) models NmPackage/__init__.py:
  - `MsBuild.Error` and `MsBuildExceptionHandle`;
  - the `VsProject` name and folder;
  - the older `Integrate`, which filters blank lines from the rendered project.
- `Uninstall` (uninstall.dfy) models NmPackage/cli/uninstall.py:
  - `collect_all_packages`: a top-down walk over an in-memory directory tree that
    prunes `.svn`/`.git`, reads every `*.NmPackageDeps.props` file and unites the
    sets;
  - `main`: the ids become a set, a dry run stops, every distinct id is uninstalled
    once.
- `DebugLogs` (debug_log.dfy) models the logger that appears in three copies:
  - the `DebugLog` class with its level and enabled flag;
  - its `DebugLogScopedPush` guard;
  - the exception handler of NmPackage/debug.py.
  Each copy's default for `enabled` is one constructor of `DebugLog`.
- `ConanProject` (conan_project.dfy) models `VsProject._set_path` of
  conan_vs_integration/__init__.py: the folder rule of exactly one `*.vcxproj` and
  a `conanfile.txt`.
- `ConanInstall` (conan_install.dfy) models conan_vs_integration/install.py: the
  MSBuild settings mapped to conan settings, and the `conan install` command line.
- Supporting modules:
  - `WindowsPaths` (paths.dfy): the part of `PureWindowsPath` the code relies on,
    which splits on both `\` and `/`;
  - `PackageIds` (package_id.dfy): `NmPackageId`, its qualified id, and the git
    slug its tests pin down;
  - `Xml` (xml.dfy): an abstract DOM of elements, text, comments and other nodes;
  - `Strings` (strings.dfy) and `Wrappers` (wrappers.dfy): string helpers, and
    `Option`/`Result`.

Every exception the Python code raises in the modelled operations is an `Err` of a
`Result` naming the cause. File system facts (does the file exist, what does the
folder hold, what did the parser return, `None` when it raised) are inputs. Where
the code has already written a file when it fails, the error names that file.

## Model

| member | source | states |
|---|---|---|
| PackageIds.QualifiedIdInjective | NmPackage/test/test_NmPackageId.py:9-20 | for ids whose parts are non-empty, separator-free and not `.`, equal qualified ids (`packageId\versionId`) mean equal ids |
| PackageIds.SlugWellFormed | NmPackage/test/test_NmPackageManager.py:17-36 | every slug character is in `[A-Za-z0-9_.-]`, the slug does not start with `-`, and it ends in neither `.git` nor `.atom` |
| PackageIds.SlugLeadingDashExample | NmPackage/test/test_NmPackageManager.py:27 | the slug of `-package\1` is `_package_1` |
| PackageIds.SlugGitSuffixExample | NmPackage/test/test_NmPackageManager.py:32 | the slug of `package\1.git` is `package_1_git` |
| PackageIds.SlugPlainExample | NmPackage/test/test_NmPackageManager.py:19 | the slug of `packageId\1.0.0-a` is `packageId_1.0.0-a` |
| PackageIds.SlugSpacesExample | NmPackage/test/test_NmPackageManager.py:23 | the slug of `package with spaces\1 0 0` is `package_with_spaces_1_0_0` |
| PackageIds.SlugPunctuationExample | NmPackage/test/test_NmPackageManager.py:24 | the slug of `package+b\version:1,0%a` is `package_b_version_1_0_a` |
| PackageIds.SlugDoubleDashExample | NmPackage/test/test_NmPackageManager.py:28 | the slug of `--package\1` is `_-package_1`: only the first `-` is replaced |
| PackageIds.SlugAtomSuffixExample | NmPackage/test/test_NmPackageManager.py:33 | the slug of `package\2.atom` is `package_2_atom` |
| PackageIds.SlugOtherSuffixExample | NmPackage/test/test_NmPackageManager.py:36 | the slug of `package\3.jdv` is `package_3.jdv` |
| WindowsPaths.PartsJoin | NmPackage/test/test_Pathlib.py:11-26 | joining two paths with `\` or `/` concatenates their parts: both characters separate |
| WindowsPaths.PartsAreClean | NmPackage/test/test_Pathlib.py:11-26 | every part of a path is non-empty, free of separators and not `.` |
| WindowsPaths.CleanParts | NmPackage/test/test_Pathlib.py:11-26 | a clean string is a one-part path, and the empty string has no parts |
| WindowsPaths.StemSuffix | NmPackage/__init__.py:99-101 | `stem + suffix` gives back the name, and a non-empty suffix starts with a dot and has at least one character after it |
| DepsFileFormat.PackagePathParts | NmPackage/save.py:220-226 | the parts of `_package_to_path(id)` are `$(NmPackageDir)`, the parts of the package id, those of the version id, then `NmPackage.props` |
| DepsFileFormat.PathToPackageExact | NmPackage/save.py:229-254 | `_path_to_package(path)` returns `id` exactly when `id`'s parts are clean and `path` is byte-identical to `_package_to_path(id)`: it inverts `_package_to_path` on valid ids and rejects every other string |
| DepsFileFormat.ForwardSlashesRejected | NmPackage/save.py:246-252 | a path written with `/` separators is rejected, although it names the same parts |
| DepsFileFormat.SortByQualifiedId | NmPackage/save.py:274-275 | the sorted list is a permutation of the input |
| DepsFileFormat.SortSorted | NmPackage/save.py:274-275 | the sorted list is ascending in `qualifiedId` |
| DepsFileFormat.SortedKeysUnique | NmPackage/save.py:271-275 | two lists holding the same packages sort to the same sequence of keys |
| DepsFileFormat.KeyOrderIsNotPathOrder | NmPackage/save.py:274 | `x\1` sorts before `x\10` by key, although sorting by import path would put it after |
| DepsFileFormat.ImportNode | NmPackage/save.py:279-282 | an `Import` element with no children and exactly the attributes `Project=path` and `Condition=Exists('path')` |
| DepsFileFormat.ImportNodesByKey | NmPackage/save.py:278-282 | lists with the same keys produce the same `Import` nodes |
| DepsFileFormat.OrderIndependent | NmPackage/save.py:271-282 | the document does not depend on the order the packages are listed in |
| DepsFileFormat.ListPackages | NmPackage/save.py:275 | iterating the set lists each package exactly once |
| DepsFileFormat.AppendImports | NmPackage/save.py:278-282 | the append loop adds one `Import` per package, in order, after the existing children |
| DepsFileFormat.Serialize | NmPackage/save.py:257-282 | the built document is the one the set determines, whatever order the set is iterated in |
| DepsFileFormat.DocumentShape | NmPackage/save.py:263-282 | the root is `Project` with exactly `DefaultTargets`, `ToolsVersion` and `xmlns`; the banner comment comes first; then one `Import` per package, in ascending key order |
| DepsFileFormat.ReadChildren | NmPackage/save.py:191 | one verdict per child of the root, in document order |
| DepsFileFormat.Deserialize | NmPackage/save.py:182-217 | the loop over the root's children gives the set of packages its children list, or the first error |
| DepsFileFormat.ReadImportsOkIff | NmPackage/save.py:191-215 | reading succeeds exactly when every child reads |
| DepsFileFormat.ReadImportsSucceeds | NmPackage/save.py:191-217 | when every child reads, the result is exactly the set of packages the `Import` children name |
| DepsFileFormat.ReadImportsFails | NmPackage/save.py:191-215 | the first child that fails decides the error, whatever follows |
| DepsFileFormat.SkippableChildren | NmPackage/save.py:193-199 | a comment or a whitespace-only text node can be inserted anywhere without changing the result |
| DepsFileFormat.OnlyProjectAttributeRead | NmPackage/save.py:210-214 | two elements with the same tag and the same `Project` attribute read the same, whatever their other attributes (`Condition`) or children |
| DepsFileFormat.ReadChildValid | NmPackage/save.py:208-215 | a child that yields a package is an `Import` element whose `Project` is that package's canonical path, and the package is valid |
| DepsFileFormat.ImportNodeReads | NmPackage/save.py:210-214 | reading the `Import` node of a valid id gives that id back |
| DepsFileFormat.RoundTrip | NmPackage/save.py:182-285 | deserializing the serialized document of a set of valid ids gives that set back |
| DepsFileFormat.EmptyDocument | NmPackage/test/test_VsProjectDependencySerialization.py:111-140 | the empty set serializes to the root and banner only, which reads back as the empty set |
| Save.FindVcxprojOk | NmPackage/save.py:17-47 | a project file is found exactly when the argument is a matching file (returned as is) or a directory with one match (that match) |
| Save.FindVcxprojErrors | NmPackage/save.py:24-47 | each error case happens exactly when its condition holds: a non-matching file, a directory with no match, one with several, or neither file nor directory |
| Save.FindVcxprojAsWrittenDiffers | NmPackage/save.py:39-43 | the code as written and the intended code differ exactly on directories with several matches |
| Save.MultipleProjectsExample | NmPackage/save.py:42 | with two candidates, the code as written fails with the join's type error, while the intended code lists both candidates |
| Save.FindMessages | NmPackage/save.py:26-46 | each message opens (or, for an unknown argument, closes) with the phrase its case is known by |
| Save.DropBlankText | NmPackage/save.py:145-149 | the kept children are exactly the children that are not whitespace-only text |
| Save.RemoveBlankText | NmPackage/save.py:145-149 | the removal loop keeps exactly the non-blank children, in order |
| Save.Sanitized | NmPackage/save.py:110-153 | sanitizing keeps an element's tag and attributes, and leaves text, comments and other nodes alone |
| Save.SanitizedFromIsFilterMap | NmPackage/save.py:137-153 | an element with element children loses its whitespace-only text, and every remaining child is sanitized, in order |
| Save.SanitizedTidy | NmPackage/save.py:110-153 | afterwards, no element that has element children keeps a whitespace-only text child, at any depth |
| Save.SanitizedFromElements | NmPackage/save.py:133-153 | after sanitizing, an element has an element child exactly when it had one before, so simple elements stay simple and complex ones stay complex |
| Save.TidyFixpoint | NmPackage/save.py:137-139 | a tree that is already clean is left unchanged, in particular an element without element children |
| Save.SanitizedIdempotent | NmPackage/save.py:110-153 | sanitizing twice is sanitizing once |
| Save.SanitizeTextNodes | NmPackage/save.py:110-153 | the recursive method computes the sanitized tree |
| Save.SanitizeEach | NmPackage/save.py:152-153 | the loop over the child elements sanitizes each one |
| Save.IntegrateVsProject | NmPackage/save.py:52-108 | the method computes `IntegrationOf`: the same errors, dependency file, project and written text |
| Save.IntegrationShape | NmPackage/save.py:61-108 | integration succeeds exactly when the project exists, the dependency file does not, and the project parses; each failure has its own error, and a project that does not parse fails after the dependency file is written; on success it writes `<projectName>.NmPackageDeps.props` holding an empty listing, the project root keeps its tag and attributes, its sanitized children, then `Import Project=name` and `ItemGroup/Text Include=name`, and the written text is that project's rendered lines rewritten, with no `"/>` |
| Save.UnreadableProjectBlocksRetry | NmPackage/save.py:67-76 | a project that does not parse fails after its dependency file is written, so a second run fails because that file already exists |
| Save.FixSelfClosingClean | NmPackage/save.py:101-106 | no rewritten line contains `"/>` |
| Save.FixSelfClosingKeeps | NmPackage/save.py:106 | a line without `"/>` is not changed |
| Save.WriteProjectLines | NmPackage/save.py:101-108 | the write loop writes each rewritten line followed by a newline |
| Save.WrittenTextClean | NmPackage/save.py:101-108 | the written project text contains no `"/>` anywhere, including across line breaks |
| Save.WrittenTextEnds | NmPackage/save.py:108 | the written text is empty or ends with a newline |
| Save.IntegrateResolves | NmPackage/save.py:5-13 | `Integrate(path)` succeeds exactly when `find_vcxproj` (as written) does, the match is a regular file, the dependency file is absent and the project parses; a match that is not a file fails as `VsProject` does, an unparsable project fails after its dependency file is written; the dependency file is named after the project file's stem and the written text has no `"/>` |
| Xml.AppendChild | NmPackage/save.py:82-93 | `appendChild` keeps the element's tag and attributes and adds the node last |
| Xml.FindFirst | NmPackage/__init__.py:214-215 | a found path leads to an element of the requested tag |
| Xml.FindFirstComplete | NmPackage/__init__.py:214-215 | the search finds nothing exactly when no element of the tree has the tag, as `getElementsByTagName` is then empty |
| Xml.FindFirstIsFirst | NmPackage/__init__.py:214-215 | no element with the tag comes before the found one in document order, so it is `getElementsByTagName(tag)[0]` |
| Xml.AppendAtFrame | NmPackage/__init__.py:216 | appending at a path leaves every node off that path unchanged |
| Xml.AppendAtAncestors | NmPackage/__init__.py:216 | the elements above the one appended to keep their tag, attributes and number of children |
| Xml.AppendTwiceAt | NmPackage/__init__.py:216-241 | two appends to one element add both nodes there in order and change nothing off the path to it |
| Xml.FindFirstAfterAppend | NmPackage/__init__.py:233-234 | after appending to the first `Project` element, the first `Project` element is still the same one |
| Xml.AtAppendAt | NmPackage/__init__.py:216 | appending at a path changes the element there by one trailing child |
| NmPackageInit.MsBuildError | NmPackage/__init__.py:16-18 | the line is `Error: `, the message, then a newline |
| NmPackageInit.MsBuildExceptionHandle.Report | NmPackage/__init__.py:26-30 | the handler writes the MSBuild error for `type : message`, then the traceback in debug mode only |
| NmPackageInit.HandlersAgree | NmPackage/__init__.py:26-28 | the command-line handler and the MSBuild handler write the same error line |
| NmPackageInit.VsProject.Folder | NmPackage/__init__.py:91-93 | the folder is every part of the project file's path but the last |
| NmPackageInit.VsProject.ProjectName | NmPackage/__init__.py:99-101 | the project name followed by the file's suffix is the file name |
| NmPackageInit.OpenVsProject | NmPackage/__init__.py:83-89 | a project opens exactly when its file exists; otherwise the error names the file |
| NmPackageInit.NonBlankLines | NmPackage/__init__.py:240 | no kept line is blank |
| NmPackageInit.NonBlankLinesMembers | NmPackage/__init__.py:240 | the kept lines are exactly the lines with a non-whitespace character |
| NmPackageInit.NonBlankLinesKeepsClean | NmPackage/__init__.py:240 | text without blank lines is kept whole, in order |
| NmPackageInit.NonBlankLinesIdempotent | NmPackage/__init__.py:240 | filtering twice is filtering once |
| NmPackageInit.NonBlankLinesAppend | NmPackage/__init__.py:240 | the filter works line by line |
| NmPackageInit.Integrate | NmPackage/__init__.py:185-241 | the method computes `LegacyIntegrationOf` |
| NmPackageInit.LegacyIntegrationShape | NmPackage/__init__.py:191-241 | integration succeeds exactly when the folder is the working directory, the project parses and has a `Project` element; an unparsable project or one without `Project` fails after the copy, naming the copied file; the target is `projectName + ".NmPackageDeps.props"`; the first `Project` element in document order keeps its tag and attributes and gains `Import Project=name`, then `ItemGroup/Text Include=name`; its ancestors keep tag, attributes and child count, every other node is unchanged; the text is the rendered lines without blank ones, joined |
| DebugLogs.Indentation | NmPackage/debug.py:42 | the indentation has three characters per level, and none for a level of zero or below |
| DebugLogs.IndentationUnits | NmPackage/debug.py:42 | the indentation is `lvl` copies of the unit: a bar and two spaces |
| DebugLogs.Line | NmPackage/debug.py:42 | a printed line is the indentation followed by the message |
| DebugLogs.Popped | NmPackage/debug.py:49-58 | `pop`'s new level is one less, but never below zero |
| DebugLogs.LevelNeverNegative | NmPackage/debug.py:35-58 | from a non-negative level, no sequence of calls makes the level negative |
| DebugLogs.LevelAfterUnclamped | NmPackage/debug.py:44-58 | when no prefix pops below zero, the level is the start plus pushes minus pops |
| DebugLogs.DisabledIsSilent | NmPackage/__init__.py:52-60 | a disabled logger prints nothing, whatever the calls |
| DebugLogs.PrintsKeepLevel | NmPackage/debug.py:38-42 | printing never changes the level |
| DebugLogs.BalancedScopeRestores | NmPackage/debug.py:20-29 | a scope whose body pushes as often as it pops, never popping below its start, leaves the level where it was on exit |
| DebugLogs.DebugLog.ForDebugModule | NmPackage/debug.py:35-36 | the level starts at 0 and the logger is enabled |
| DebugLogs.DebugLog.ForPackageModule | NmPackage/__init__.py:52-53 | the level starts at 0 and the logger is disabled |
| DebugLogs.DebugLog.ForConanModule | conan_vs_integration/__init__.py:49-50 | the level starts at 0 and the logger is disabled |
| DebugLogs.DebugLog.Print | NmPackage/debug.py:38-42 | when enabled, one line of indentation plus message is added to the output; nothing changes otherwise, and the level never does |
| DebugLogs.DebugLog.Push | NmPackage/debug.py:44-47 | the level goes up by exactly one and the new level is returned |
| DebugLogs.DebugLog.Pop | NmPackage/debug.py:49-58 | the level goes down by one but not below zero, and the new level is returned |
| DebugLogs.DebugLog.Run | NmPackage/debug.py:38-58 | any sequence of calls leaves the level and output the specification functions give |
| DebugLogs.ScopedPush.Enter | NmPackage/debug.py:20-25 | the message, when given, is printed at the old level; the old level is saved; the level goes up by one |
| DebugLogs.ScopedPush.Exit | NmPackage/debug.py:27-29 | the level is popped, and the assertion holds exactly when it is back at the saved level |
| DebugLogs.WithScope | NmPackage/debug.py:16-29 | a `with` block's level and output are those of the message, the body one level deeper, then a pop; the assertion holds exactly when the level is restored |
| DebugLogs.ErrorLine | NmPackage/debug.py:8-10 | the line is `Error: `, then `type : message`, then a newline |
| DebugLogs.ExceptionReport | NmPackage/debug.py:5-13 | the error line, followed by the traceback only when the logger is enabled |
| ConanProject.ProjectFiles | conan_vs_integration/__init__.py:90 | the project files are the regular files with suffix `.vcxproj` |
| ConanProject.ProjectFilesMembers | conan_vs_integration/__init__.py:90 | an entry is a project file exactly when it is listed, is a regular file, and has suffix `.vcxproj` |
| ConanProject.ProjectSuffixOf | conan_vs_integration/__init__.py:90 | `<stem>.vcxproj` has suffix `.vcxproj` unless the stem is empty (a dot file has no suffix) |
| ConanProject.UpperCaseIsNotAProject | conan_vs_integration/__init__.py:90 | the suffix test is case-sensitive: `a.VCXPROJ` is not a project file |
| ConanProject.SetPathAsWrittenDiffers | conan_vs_integration/__init__.py:86-94 | the code as written agrees with the intended outcome for a `Path` argument, and for a `str` argument exactly when the folder holds one project file; otherwise it raises `AttributeError` |
| ConanProject.CwdWithTwoProjectsExample | conan_vs_integration/integrate.py:45 | `VsProject(os.getcwd())` in a folder with two project files raises `AttributeError` instead of the "contains multiple" exception |
| ConanProject.SetPathOutcome | conan_vs_integration/__init__.py:83-102 | the folder is accepted exactly when it is a directory with one project file and a `conanfile.txt`; the accepted project file is the only one; otherwise the first failing check gives the error |
| ConanProject.VsProject.SetPath | conan_vs_integration/__init__.py:83-102 | `path` is always recorded; the project file is recorded once it is the only one; the outcome is `SetPathOutcome`'s |
| ConanProject.NewVsProject | conan_vs_integration/__init__.py:80-81 | a new project exists exactly when the folder is accepted, and records the folder and its project file |
| ConanInstall.ProcessPlatform | conan_vs_integration/install.py:59-65 | `Win32` gives `arch=x86`, `x64` gives `arch=x86_64`, and anything else is an error naming the platform |
| ConanInstall.ProcessVisualStudioVersion | conan_vs_integration/install.py:67-71 | only `11.0` maps, to `compiler.version=11`; anything else is an error naming the version |
| ConanInstall.ProcessConfiguration | conan_vs_integration/install.py:75-76 | the setting is `build_type=` followed by the configuration; a missing configuration is an error |
| ConanInstall.CommandShape | conan_vs_integration/install.py:48-51 | the command is built exactly when all three settings map, and is then `conan install ./ -s <platform> -s <configuration> -s <version>`; otherwise the error of the first failing setting, in that order |
| ConanInstall.Main | conan_vs_integration/install.py:45-56 | no command runs unless every setting maps; the command has nine words and is echoed, joined by spaces, in debug mode only |
| ConanInstall.ReleaseX64Example | conan_vs_integration/install.py:45-76 | an x64 Release build with Visual Studio 11.0 runs `conan install ./ -s arch=x86_64 -s build_type=Release -s compiler.version=11` |
| Uninstall.RemoveFirst | NmPackage/cli/uninstall.py:83-84 | only listed folders are kept, and a name that is not there changes nothing |
| Uninstall.PruneVcs | NmPackage/cli/uninstall.py:80-84 | the pruning loop leaves the folders `Pruned` gives |
| Uninstall.PrunedSkipsVcs | NmPackage/cli/uninstall.py:80-84 | among sibling folders with distinct names, pruning removes every `.svn` and `.git` |
| Uninstall.NeverEntersVcs | NmPackage/cli/uninstall.py:80-84 | the walk never visits a `.svn` or `.git` folder below the folders it starts from |
| Uninstall.Matched | NmPackage/cli/uninstall.py:87 | the files kept are exactly those whose name ends with `.NmPackageDeps.props` |
| Uninstall.WalkReadsDepsFiles | NmPackage/cli/uninstall.py:87-93 | every file the walk reads is a dependency file |
| Uninstall.WalkStep | NmPackage/cli/uninstall.py:81-93 | the walk handles a folder's files, then its pruned sub-folders depth first, then the rest |
| Uninstall.ReadDepsFile | NmPackage/cli/uninstall.py:92-93 | a file reads as its parsed document deserializes, and fails if it does not parse |
| Uninstall.GatherOk | NmPackage/cli/uninstall.py:90-93 | reading the files succeeds exactly when every file reads |
| Uninstall.GatherUnion | NmPackage/cli/uninstall.py:90-93 | the packages gathered are exactly those some file lists |
| Uninstall.GatherFails | NmPackage/cli/uninstall.py:90-93 | the first file that does not read decides the error |
| Uninstall.GatherOrderIndependent | NmPackage/cli/uninstall.py:90-95 | the result does not depend on the order the files are read in |
| Uninstall.GatherAppend | NmPackage/cli/uninstall.py:81-93 | reading two batches of files one after the other unites their sets, the first error winning |
| Uninstall.ReadAll | NmPackage/cli/uninstall.py:90-93 | the loop over one folder's files adds what they list to the packages gathered so far |
| Uninstall.CollectAllPackages | NmPackage/cli/uninstall.py:71-95 | the walk computes `CollectAll`: an error for a path that is not a directory, otherwise the gathered set or the first error |
| Uninstall.CollectIsUnion | NmPackage/cli/uninstall.py:75-95 | the collection succeeds exactly when every dependency file reads, and is then the union of what they list |
| Uninstall.NothingMatchedIsEmpty | NmPackage/cli/uninstall.py:75-95 | a tree without dependency files yields the empty set |
| Uninstall.FailureAborts | NmPackage/cli/uninstall.py:92-93 | a dependency file that does not read aborts the whole collection with its error |
| Uninstall.UninstallLog | NmPackage/cli/uninstall.py:63-64 | a disabled logger logs nothing, an enabled one one line per package |
| Uninstall.UninstallMain | NmPackage/cli/uninstall.py:42-65 | a dry run uninstalls and logs nothing; otherwise exactly the given ids are uninstalled, each once, and each is logged before it goes |

## Left out

- Text-level XML is not modelled: minidom's parser and `toprettyxml` are foreign
  library code.
  - A dependency file is given as its parsed root, or as not well-formed.
  - The rendered project lines are an input: `render` in the legacy `Integrate`,
    and the lines of `WriteProjectLines`.
  - So the serialized banner text, attribute order and indentation are not
    modelled.
- The DOM is a value: `appendChild`, `removeChild` and `unlink` return new trees,
  so node identity and aliasing between DOM nodes are not modelled.
- File system and process I/O are inputs, not effects:
  - `open`, `exists`, `is_file`, `is_dir`, `glob`, `iterdir` and `os.walk`;
  - `shutil.copy` of the template dependency file in the legacy `Integrate`;
  - `subprocess.check_call`;
  - writing files. The written content is the result.
- `Serialize` returns the DOM it builds. The file text it pretty-prints is not
  modelled, for the reason above.
- `os.linesep` is the `lineSep` parameter, and `os.getcwd()` equality is a boolean
  input.
- Tracebacks are opaque text, and the log output is a sequence of lines. The
  `flush=True` of one copy has no counterpart.
- Python keeps the logger in class attributes shared by the process. Here it is
  one `DebugLog` object that callers share by reference.
  - Uninstall.CollectAllPackages: its `found: <file>` debug lines are not
    modelled, because the function is modelled without a logger.
- `filehash`, `VerifyIntegration`, `UpdateIntegration` and `VsConanProject` of
  NmPackage/__init__.py are left out:
  - the first three are SHA-256 checksums and file copies;
  - `VsConanProject` refers to an attribute that is never set.
- argparse, `sys.excepthook` and `sys.exit` plumbing is left out, and so are the
  `install`, `AddPackage`, `list` and `integrate` commands.
  - They compose `VsProjectFiler`, `NmPackageManager` and
    `NmPackageId.from_qualifiedId`, which are not part of this model.
  - So `Uninstall.UninstallMain` takes the ids already parsed, and its result is
    the sequence of `uninstall` calls.
- Uninstall.PrunedSkipsVcs and Uninstall.NeverEntersVcs assume sibling folders have
  distinct names, as on any file system. `dirs.remove` removes only the first
  match, which `RemoveFirst` models faithfully.
- Save.IntegrationOf takes the project's name and file existence as inputs.
  - save.py reads `vsProject.project_filepath` and `vsProject.projectName` as
    attributes, but the `VsProject` of NmPackage/__init__.py defines neither.
  - The model gives them the meaning the code evidently intends: the file found
    by `find_vcxproj` and its stem.
- Exception messages are modelled only for `find_vcxproj`. Elsewhere the error
  carries the path or value it names.
  - conan_vs_integration's `_set_path` formats `path.absolute` of its argument:
    for a `Path` that is the method, not its result; for a `str` it raises
    `AttributeError` (see Findings).
  - `_path_to_package` embeds the parsed path.
- conan_vs_integration's `VsProject.path()` returns the never-set `self.Path` and
  is shadowed by the `path` attribute; it is not modelled.
- The git slug (`PackageIds.Slug`) comes from the package manager's tests, since
  its implementation is not part of this model. Its three passes follow them:
  - unsafe characters become `_`;
  - a leading `-` becomes `_`;
  - a `.git`/`.atom` suffix becomes `_git`/`_atom`.
- Paths have no drive letters, UNC anchors or root. `WindowsPaths.Parts` drops a
  leading separator, so `\p\x.vcxproj` and `p\x.vcxproj` have the same parts,
  whereas `PureWindowsPath` puts `\` first.
  - NmPackageInit.VsProject.Folder: a rooted project file's folder loses its root.
- Save.IntegrateVsProject: `render` stands for minidom's pretty printer, which is
  not modelled; the written text is proved free of `"/>` for every rendering.
- Dependency-file errors: non-blank text between imports is the `NameError` raised
  through the misspelt `Exeption`; like every other error, it aborts.

## Findings

| source | as written | input that shows it | evidently intended | confidence | as-written member | corrected member |
|---|---|---|---|---|---|---|
| conan_vs_integration/__init__.py:87 | `"..." % path.absolute` formats the argument's attribute; `integrate.py:45` and `verify.py:42` pass `os.getcwd()`, a `str`, which has none, so lines 87, 92 and 94 raise `AttributeError` (and for a `Path` argument the message shows the bound method, not the path) | `VsProject(os.getcwd())` in a folder with two `*.vcxproj` files | the exception naming the folder's absolute path, `self.path.absolute()` | not executed | ConanProject.SetPathOutcomeAsWritten (see ConanProject.SetPathAsWrittenDiffers, ConanProject.CwdWithTwoProjectsExample) | ConanProject.SetPathOutcome (see ConanProject.VsProject.SetPath) |
| NmPackage/save.py:42 | `"/n  * ".join(vcxprojectFiles)` joins `Path` objects, which raises a `TypeError` before the intended exception is built; the separator also reads `/n` for `\n` | a directory holding `proj1.vcxproj` and `proj2.vcxproj` | an exception saying that several project files were found, listing the candidates one per line | not executed | Save.FindVcxprojAsWritten (see Save.MultipleProjectsExample, Save.FindVcxprojAsWrittenDiffers) | Save.FindVcxproj (see Save.FindVcxprojOk, Save.FindVcxprojErrors, Save.FindMessages) |
