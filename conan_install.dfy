/** conan_vs_integration/install.py: the MSBuild build settings (`Platform`,
    `Configuration`, `VisualStudioVersion`) become conan settings, assembled into
    the `conan install` command line. Running the command is not modelled; the
    command line is the result. */
module ConanInstall {
  import opened Wrappers
  import opened Strings

  /** The parsed command line: `None` where an option was not given. */
  datatype InstallArgs = InstallArgs(
    platform: Option<string>,
    configuration: Option<string>,
    visualStudioVersion: Option<string>,
    debug: bool)

  datatype InstallError =
    | UnknownPlatform(platform: Option<string>)
    | ConfigurationMissing                      // `"build_type=" + None` raises a TypeError
    | UnknownVisualStudioVersion(version: Option<string>)

  /** `processPlatform`: only `Win32` and `x64` map to a conan architecture. */
  function ProcessPlatform(args: InstallArgs): (r: Result<string, InstallError>)
    ensures r == Ok("arch=x86") <==> args.platform == Some("Win32")
    ensures r == Ok("arch=x86_64") <==> args.platform == Some("x64")
    ensures r.Ok? || r == Err(UnknownPlatform(args.platform))
  {
    if args.platform == Some("Win32") then Ok("arch=x86")
    else if args.platform == Some("x64") then Ok("arch=x86_64")
    else Err(UnknownPlatform(args.platform))
  }

  /** `processVisualStudioVersion`: only Visual Studio 2012 (`11.0`) is known. */
  function ProcessVisualStudioVersion(args: InstallArgs): (r: Result<string, InstallError>)
    ensures r.Ok? <==> args.visualStudioVersion == Some("11.0")
    ensures r.Ok? ==> r.value == "compiler.version=11"
    ensures r.Err? ==> r.error == UnknownVisualStudioVersion(args.visualStudioVersion)
  {
    if args.visualStudioVersion == Some("11.0") then Ok("compiler.version=11")
    else Err(UnknownVisualStudioVersion(args.visualStudioVersion))
  }

  /** `processConfiguration`: the configuration is passed through as the build type. */
  function ProcessConfiguration(args: InstallArgs): (r: Result<string, InstallError>)
    ensures r.Ok? <==> args.configuration.Some?
    ensures r.Ok? ==> StartsWith(r.value, "build_type=") && r.value[11..] == args.configuration.value
  {
    match args.configuration
    case Some(c) =>
      var r := "build_type=" + c;
      assert r[..11] == "build_type=";
      Ok(r)
    case None => Err(ConfigurationMissing)
  }

  /** The `cmd` list of `main`: the settings are computed in the order platform,
      configuration, Visual Studio version, and the first that raises stops `main`. */
  function Command(args: InstallArgs): Result<seq<string>, InstallError> {
    var cmd := ["conan", "install", "./"];
    var platform :- ProcessPlatform(args);
    var cmd := cmd + ["-s", platform];
    var configuration :- ProcessConfiguration(args);
    var cmd := cmd + ["-s", configuration];
    var version :- ProcessVisualStudioVersion(args);
    Ok(cmd + ["-s", version])
  }

  /** The command is built exactly when all three settings map, and is then
      `conan install ./ -s <platform> -s <configuration> -s <version>`; otherwise
      the error is that of the first setting that fails. */
  lemma CommandShape(args: InstallArgs)
    ensures Command(args).Ok?
      <==> ProcessPlatform(args).Ok? && ProcessConfiguration(args).Ok? && ProcessVisualStudioVersion(args).Ok?
    ensures Command(args).Ok? ==> Command(args).value == ["conan", "install", "./",
      "-s", ProcessPlatform(args).value,
      "-s", ProcessConfiguration(args).value,
      "-s", ProcessVisualStudioVersion(args).value]
    ensures ProcessPlatform(args).Err? ==> Command(args) == Err(ProcessPlatform(args).error)
    ensures ProcessPlatform(args).Ok? && ProcessConfiguration(args).Err? ==> Command(args) == Err(ConfigurationMissing)
    ensures ProcessPlatform(args).Ok? && ProcessConfiguration(args).Ok? && ProcessVisualStudioVersion(args).Err?
      ==> Command(args) == Err(UnknownVisualStudioVersion(args.visualStudioVersion))
  {
  }

  /** `" ".join(cmd)` */
  function JoinWords(words: seq<string>): string
    decreases |words|
  {
    if words == [] then ""
    else if |words| == 1 then words[0]
    else words[0] + " " + JoinWords(words[1..])
  }

  /** What `main` does once the arguments are parsed: the command line it echoes in
      debug mode and the command it runs. */
  datatype Invocation = Invocation(echo: Option<string>, command: seq<string>)

  /** `main`: no command runs unless every setting maps. */
  function Main(args: InstallArgs): (r: Result<Invocation, InstallError>)
    ensures r.Ok? <==> Command(args).Ok?
    ensures r.Ok? ==> r.value.command == Command(args).value && |r.value.command| == 9
    ensures r.Ok? ==> (r.value.echo.Some? <==> args.debug)
    ensures r.Ok? && args.debug ==> r.value.echo.value == JoinWords(r.value.command)
    ensures r.Err? ==> r.error == Command(args).error
  {
    CommandShape(args);
    match Command(args)
    case Ok(cmd) => Ok(Invocation(if args.debug then Some(JoinWords(cmd)) else None, cmd))
    case Err(e) => Err(e)
  }

  /** The settings of a Visual Studio 2012 x64 Release build. */
  lemma ReleaseX64Example()
    ensures Main(InstallArgs(Some("x64"), Some("Release"), Some("11.0"), false))
      == Ok(Invocation(None, ["conan", "install", "./", "-s", "arch=x86_64",
                              "-s", "build_type=Release", "-s", "compiler.version=11"]))
  {
    var args := InstallArgs(Some("x64"), Some("Release"), Some("11.0"), false);
    CommandShape(args);
    assert ProcessConfiguration(args).value == "build_type=Release";
  }
}
