/** `VirtualEnvironmentManager`: a virtual environment at `path`, whose derived
    attributes are computed on first use and kept, and whose programs are run through
    the host. */
module Manager {
  import opened Wrappers
  import opened Strings
  import opened Paths
  import opened Process
  import opened WheelNames
  import opened Compatibility
  import opened PipCommands

  /** The value of a derived attribute. */
  datatype Attr = PathAttr(path: Path) | TagsAttr(tags: set<string>)

  /** What `python -m venv <root>` leaves behind that the manager relies on: the root,
      its scripts directory, and the `python` and `pip` launchers in it. */
  function VenvLayout(root: Path, isNt: bool): set<Path>
  {
    {root, BinDir(root, isNt), ResolveProgram(root, "python", isNt), ResolveProgram(root, "pip", isNt)}
  }

  /** `repr()` of a string holding no quote, backslash or unprintable character. */
  function Quote(s: string): string
  {
    "'" + s + "'"
  }

  /** The options of the `venv` run (line 145). */
  function VenvOptions(): RunOptions
  {
    RunOptions(None, None, true, true, Inherit, Inherit, Some(true))
  }

  /** The arguments of the pip bootstrap (line 146). */
  const BootstrapArguments: seq<string> := ["-m", "pip", "install", "--upgrade", "pip"]

  const SelfDeletion: string := "You can't run this command from your virtual environment"

  /** The `venv` command line (line 145). */
  function VenvCommand(executable: Path, root: Path, systemSitePackages: bool): seq<string>
  {
    [PathStr(executable), "-m", "venv", PathStr(root)]
      + (if systemSitePackages then ["--system-site-packages"] else [])
  }

  /** The pip bootstrap (line 146): the environment's python, run through `__call__`. */
  function BootCommand(root: Path, isNt: bool): seq<string>
  {
    [PathStr(ResolveProgram(root, "python", isNt))] + BootstrapArguments
  }

  /** Provisioning reaches a successful `venv` run (line 145), after which the pip
      bootstrap's `__call__` stores `bin_scripts`. */
  predicate CreatesEnvironment(host: Host, path: Path, overwrite: bool, systemSitePackages: bool,
                               existing0: set<Path>)
  {
    && (path in existing0 ==> overwrite && path !in Parents(host.executable))
    && host.Outcome(VenvCommand(host.executable, path, systemSitePackages), VenvOptions()).Ok?
  }

  /** What lines 133-146 do to a host whose log and existing paths were `log0` and
      `existing0`: the log, the existing paths and the result they end with. An existing
      path without `overwrite` is used as it is; an existing ancestor of the interpreter
      is refused; otherwise the old tree is removed, the environment is created and pip
      is upgraded in it, and the first failing run is the error. */
  ghost predicate Provisioned(host: Host, path: Path, isTemp: bool, overwrite: bool, systemSitePackages: bool,
                              log0: seq<Event>, existing0: set<Path>,
                              log: seq<Event>, existing: set<Path>, r: Result<(), Error>)
  {
    var existed := path in existing0;
    if existed && !overwrite then
      r == Ok(()) && log == log0 && existing == existing0
    else if existed && path in Parents(host.executable) then
      r == Err(RuntimeError(SelfDeletion)) && log == log0 && existing == existing0
    else
      var venvArgv := VenvCommand(host.executable, path, systemSitePackages);
      var venv := host.Outcome(venvArgv, VenvOptions());
      var bootArgv := BootCommand(path, host.isNt);
      var boot := host.Outcome(bootArgv, CallRunOptions(None, None, NoCapture));
      && log == log0
           + (if existed then [Rmtree(path)] else [])
           + (if isTemp then [RegisterAtexit(Parent(path))] else [])
           + [Spawn(venvArgv, VenvOptions())]
           + (if venv.Ok? then [Spawn(bootArgv, CallRunOptions(None, None, NoCapture))] else [])
      && existing == (if existed then (set q | q in existing0 && !Under(path, q)) else existing0)
                       + (if venv.Ok? then VenvLayout(path, host.isNt) else {})
      && r == (if venv.Err? then Err(venv.error) else if boot.Err? then Err(boot.error) else Ok(()))
  }

  /** After a successful provisioning the environment's path exists. */
  lemma ProvisionedPathExists(host: Host, path: Path, isTemp: bool, overwrite: bool, systemSitePackages: bool,
                              log0: seq<Event>, existing0: set<Path>,
                              log: seq<Event>, existing: set<Path>, r: Result<(), Error>)
    requires Provisioned(host, path, isTemp, overwrite, systemSitePackages, log0, existing0, log, existing, r)
    requires r.Ok?
    ensures path in existing
  {
  }

  /** Provisioning only appends to the log, removes nothing but the environment's own
      tree, and removes that only when it is not an ancestor of the interpreter. */
  lemma ProvisionedIsSafe(host: Host, path: Path, isTemp: bool, overwrite: bool, systemSitePackages: bool,
                          log0: seq<Event>, existing0: set<Path>,
                          log: seq<Event>, existing: set<Path>, r: Result<(), Error>)
    requires Provisioned(host, path, isTemp, overwrite, systemSitePackages, log0, existing0, log, existing, r)
    ensures |log0| <= |log| && log[..|log0|] == log0
    ensures forall i :: |log0| <= i < |log| && log[i].Rmtree? ==>
              log[i].path == path && overwrite && path !in Parents(host.executable)
    ensures forall q :: q in existing0 && !Under(path, q) ==> q in existing
  {
  }

  /** `'overwrite=' + repr(True)` and `'system_site_packages=' + repr(True)`. */
  const OverwriteParameter: string := "overwrite=True"
  const SystemSitePackagesParameter: string := "system_site_packages=True"

  const NotSubscriptable: string := "'NoneType' object is not subscriptable"

  class VirtualEnvironmentManager {
    const host: Host
    const path: Path
    const isTemp: bool
    /** `_overwrite` and `_system_site_packages` exist exactly when these are set. */
    const overwrite: bool
    const systemSitePackages: bool
    /** The attributes `__getattr__` computes and stores. */
    var binScripts: Option<Path>
    var compatibleTags: Option<set<string>>
    /** How often `sys_tags()` has been consulted. */
    ghost var tagProbes: nat

    /** A stored attribute holds the value `__getattr__` computes, and the tag probe
        has run exactly when `compatible_tags` is stored. */
    ghost predicate Valid()
      reads this
    {
      && (binScripts.Some? ==> binScripts.value == BinDir(path, host.isNt))
      && (compatibleTags.Some? ==> compatibleTags.value == host.sysTags)
      && tagProbes == (if compatibleTags.Some? then 1 else 0)
    }

    /** Lines 120-131: the path is made absolute, or is `venv` inside a fresh temporary
        directory `scratch` (what `mkdtemp()` returns: a new name, which it creates, so
        nothing at or below it exists before); nothing is computed or run yet. */
    constructor(host: Host, pathArg: Option<PathArg>, overwrite: bool, systemSitePackages: bool, scratch: Path)
      requires pathArg.None? ==> forall q :: q in host.existing ==> !Under(scratch, q)
      modifies host
      ensures this.host == host && this.overwrite == overwrite && this.systemSitePackages == systemSitePackages
      ensures pathArg.None? ==> isTemp && path == scratch + ["venv"] && host.existing == old(host.existing) + {scratch}
      ensures pathArg.None? ==> path !in host.existing && Parent(path) == scratch
      ensures pathArg.Some? ==> !isTemp && path == Absolute(host.cwd, pathArg.value) && host.existing == old(host.existing)
      ensures host.log == old(host.log)
      ensures binScripts.None? && compatibleTags.None? && tagProbes == 0 && Valid()
    {
      this.host := host;
      if pathArg.None? {
        path := scratch + ["venv"];
        isTemp := true;
      } else {
        path := Absolute(host.cwd, pathArg.value);
        isTemp := false;
      }
      this.overwrite := overwrite;
      this.systemSitePackages := systemSitePackages;
      binScripts := None;
      compatibleTags := None;
      tagProbes := 0;
      new;
      if pathArg.None? {
        assert Under(scratch, path);
        host.existing := host.existing + {scratch};
      }
    }

    /** The `venv` command line of this environment (line 145). */
    function VenvArguments(): seq<string>
    {
      VenvCommand(host.executable, path, systemSitePackages)
    }

    /** Lines 133-136: under `overwrite` an existing path is removed with everything
        below it, unless it is an ancestor of the running interpreter. */
    method ClearForOverwrite() returns (r: Result<(), Error>)
      modifies host
      ensures
        var existed := path in old(host.existing);
        if overwrite && existed && path in Parents(host.executable) then
          r == Err(RuntimeError(SelfDeletion)) && host.log == old(host.log) && host.existing == old(host.existing)
        else if overwrite && existed then
          && r == Ok(()) && host.log == old(host.log) + [Rmtree(path)]
          && host.existing == (set q | q in old(host.existing) && !Under(path, q))
          && path !in host.existing
        else
          r == Ok(()) && host.log == old(host.log) && host.existing == old(host.existing)
    {
      if overwrite && path in host.existing {
        if path in Parents(host.executable) {
          return Err(RuntimeError(SelfDeletion));
        }
        host.RemoveTree(path);
        assert Under(path, path);
      }
      r := Ok(());
    }

    /** Lines 139-146, for an absent path: a temporary environment registers removal of
        its parent, `venv` creates the environment and pip is upgraded in it. */
    method CreateEnvironment() returns (r: Result<(), Error>)
      requires Valid() && path !in host.existing
      modifies this, host
      ensures Valid() && compatibleTags == old(compatibleTags) && tagProbes == old(tagProbes)
      ensures
        var started := old(host.log) + (if isTemp then [RegisterAtexit(Parent(path))] else [])
          + [Spawn(VenvArguments(), VenvOptions())];
        var venv := host.Outcome(VenvArguments(), VenvOptions());
        var boot := BootCommand(path, host.isNt);
        var bootOptions := CallRunOptions(None, None, NoCapture);
        if venv.Err? then
          r == Err(venv.error) && host.log == started && host.existing == old(host.existing) && binScripts == old(binScripts)
        else
          && host.log == started + [Spawn(boot, bootOptions)]
          && host.existing == old(host.existing) + VenvLayout(path, host.isNt)
          && binScripts == Some(BinDir(path, host.isNt))
          && r == (if host.Outcome(boot, bootOptions).Err? then Err(host.Outcome(boot, bootOptions).error) else Ok(()))
    {
      var venvExtraParams: seq<string> := [];
      if systemSitePackages {
        venvExtraParams := venvExtraParams + ["--system-site-packages"];
      }
      if isTemp {
        host.RegisterCleanup(Parent(path));
      }
      assert [PathStr(host.executable), "-m", "venv", PathStr(path)] + venvExtraParams == VenvArguments();
      var venv := host.Run([PathStr(host.executable), "-m", "venv", PathStr(path)] + venvExtraParams, VenvOptions());
      if venv.Err? {
        return Err(venv.error);
      }
      host.existing := host.existing + VenvLayout(path, host.isNt);
      assert ResolveProgram(path, "python", host.isNt) in host.existing;
      var boot := Call(BootstrapArguments, "python", None, None, NoCapture);
      if boot.Err? {
        return Err(boot.error);
      }
      r := Ok(());
    }

    /** Lines 138-146: creation only when the path is absent; an existing path is used
        as it is, with nothing run. */
    method CreateIfAbsent() returns (r: Result<(), Error>)
      requires Valid()
      modifies this, host
      ensures Valid() && compatibleTags == old(compatibleTags) && tagProbes == old(tagProbes)
      ensures
        var started := old(host.log) + (if isTemp then [RegisterAtexit(Parent(path))] else [])
          + [Spawn(VenvArguments(), VenvOptions())];
        var venv := host.Outcome(VenvArguments(), VenvOptions());
        var boot := BootCommand(path, host.isNt);
        var bootOptions := CallRunOptions(None, None, NoCapture);
        if path in old(host.existing) then
          r == Ok(()) && host.log == old(host.log) && host.existing == old(host.existing) && binScripts == old(binScripts)
        else if venv.Err? then
          r == Err(venv.error) && host.log == started && host.existing == old(host.existing) && binScripts == old(binScripts)
        else
          && host.log == started + [Spawn(boot, bootOptions)]
          && host.existing == old(host.existing) + VenvLayout(path, host.isNt)
          && binScripts == Some(BinDir(path, host.isNt))
          && r == (if host.Outcome(boot, bootOptions).Err? then Err(host.Outcome(boot, bootOptions).error) else Ok(()))
    {
      if path in host.existing {
        return Ok(());
      }
      r := CreateEnvironment();
    }

    /** Lines 133-146: the overwrite step, then creation when the path is absent. A path
        that exists and is not overwritten is used as it is, with nothing run. */
    method Provision() returns (r: Result<(), Error>)
      requires Valid()
      modifies this, host
      ensures Valid() && compatibleTags == old(compatibleTags) && tagProbes == old(tagProbes)
      ensures Provisioned(host, path, isTemp, overwrite, systemSitePackages,
                          old(host.log), old(host.existing), host.log, host.existing, r)
      ensures binScripts == if CreatesEnvironment(host, path, overwrite, systemSitePackages, old(host.existing))
                            then Some(BinDir(path, host.isNt)) else old(binScripts)
    {
      r := ClearForOverwrite();
      if r.Err? {
        return;
      }
      r := CreateIfAbsent();
    }

    /** `bin_scripts` (lines 101-102, 108): computed on first use and stored. */
    method BinScripts() returns (p: Path)
      requires Valid()
      modifies this
      ensures Valid() && p == BinDir(path, host.isNt) && binScripts == Some(p)
      ensures |p| == |path| + 1 && p[..|path|] == path && p[|path|] == (if host.isNt then "Scripts" else "bin")
      ensures compatibleTags == old(compatibleTags) && tagProbes == old(tagProbes)
    {
      if binScripts.Some? {
        p := binScripts.value;
      } else {
        p := Child(path, if host.isNt then "Scripts" else "bin");
        binScripts := Some(p);
      }
    }

    /** `compatible_tags` (lines 103-104, 108): `sys_tags()` is consulted on first use
        only, so at most once per instance. */
    method CompatibleTags() returns (tags: set<string>)
      requires Valid()
      modifies this
      ensures Valid() && tags == host.sysTags && compatibleTags == Some(tags) && binScripts == old(binScripts)
      ensures tagProbes == 1
      ensures old(compatibleTags).Some? ==> tagProbes == old(tagProbes)
    {
      if compatibleTags.Some? {
        tags := compatibleTags.value;
      } else {
        tagProbes := tagProbes + 1;
        tags := host.sysTags;
        compatibleTags := Some(tags);
      }
    }

    /** Reading an attribute the instance does not define itself (`__getattr__`,
        lines 93-109): the two derived attributes, or `AttributeError(name)`. */
    method Attribute(name: string) returns (r: Result<Attr, Error>)
      requires Valid()
      modifies this
      ensures Valid()
      ensures name == "bin_scripts" ==>
        r == Ok(PathAttr(BinDir(path, host.isNt))) && binScripts == Some(BinDir(path, host.isNt))
        && compatibleTags == old(compatibleTags) && tagProbes == old(tagProbes)
      ensures name == "compatible_tags" ==>
        r == Ok(TagsAttr(host.sysTags)) && compatibleTags == Some(host.sysTags) && binScripts == old(binScripts)
        && tagProbes == 1 && (old(compatibleTags).Some? ==> tagProbes == old(tagProbes))
      ensures name != "bin_scripts" && name != "compatible_tags" ==>
        r == Err(AttributeError(name)) && unchanged(this)
    {
      if name == "bin_scripts" {
        var p := BinScripts();
        r := Ok(PathAttr(p));
      } else if name == "compatible_tags" {
        var tags := CompatibleTags();
        r := Ok(TagsAttr(tags));
      } else {
        r := Err(AttributeError(name));
      }
    }

    /** `str(self)` (line 172). */
    function Str(): string
    {
      PathStr(path)
    }

    /** `str(self)` names the environment's path: its components come back from it. */
    lemma StrNamesPath()
      requires |path| >= 1 && forall i :: 0 <= i < |path| ==> '/' !in path[i]
      ensures |Str()| >= 1 && Str()[0] == '/' && Split(Str()[1..], '/') == path
    {
      PathStrRoundTrip(path);
    }

    /** The effect of one `__call__`: with the program missing, `ValueError` and no
        run; otherwise one spawn of the resolved program followed by the arguments. */
    ghost predicate Called(before: seq<Event>, after: seq<Event>, existing: set<Path>,
                           arguments: seq<string>, program: string, opts: RunOptions,
                           r: Result<Completed, Error>)
    {
      var programPath := ResolveProgram(path, program, host.isNt);
      var argv := [PathStr(programPath)] + arguments;
      if programPath !in existing then
        r == Err(ValueError("Unsupported program: " + PathStr(programPath))) && after == before
      else
        after == before + [Spawn(argv, opts)] && r == host.Outcome(argv, opts)
    }

    /** `__call__` (lines 39-71). */
    method Call(arguments: seq<string>, program: string := "python", cwd: Option<string> := None,
                env: Option<map<string, string>> := None, capture: Capture := NoCapture) returns (r: Result<Completed, Error>)
      requires Valid()
      modifies this, host
      ensures Valid() && binScripts == Some(BinDir(path, host.isNt))
      ensures compatibleTags == old(compatibleTags) && tagProbes == old(tagProbes)
      ensures host.existing == old(host.existing)
      ensures Called(old(host.log), host.log, old(host.existing), arguments, program,
                     CallRunOptions(cwd, env, capture), r)
    {
      var bin := BinScripts();
      var programPath := Child(bin, program);
      if host.isNt {
        programPath := WithSuffix(programPath, ".exe");
      }
      if programPath !in host.existing {
        return Err(ValueError("Unsupported program: " + PathStr(programPath)));
      }
      var opts := CallOptions(cwd, env, capture);
      r := host.Run([PathStr(programPath)] + arguments, opts);
    }

    /** `install` (lines 223-243): pip run with the `install` command. */
    method Install(packages: seq<string>, upgrade: bool := false, noIndex: bool := false, noDeps: bool := false)
      returns (r: Result<Completed, Error>)
      requires Valid()
      modifies this, host
      ensures Valid() && compatibleTags == old(compatibleTags) && tagProbes == old(tagProbes)
      ensures binScripts == Some(BinDir(path, host.isNt))
      ensures host.existing == old(host.existing)
      ensures Called(old(host.log), host.log, old(host.existing),
                     ["install"] + Selected(InstallSwitches, [upgrade, noIndex, noDeps]) + packages, "pip",
                     CallRunOptions(None, None, NoCapture), r)
    {
      var command := InstallArguments(packages, upgrade, noIndex, noDeps);
      r := Call(command, "pip", None, None, NoCapture);
    }

    /** `download` (lines 193-208): pip run with the `download` command. */
    method Download(packages: seq<string>, dest: string := ".", noDeps: bool := true) returns (r: Result<Completed, Error>)
      requires Valid()
      modifies this, host
      ensures Valid() && compatibleTags == old(compatibleTags) && tagProbes == old(tagProbes)
      ensures binScripts == Some(BinDir(path, host.isNt))
      ensures host.existing == old(host.existing)
      ensures Called(old(host.log), host.log, old(host.existing),
                     ["download", "--dest", dest] + Selected(["--no-deps"], [noDeps]) + packages, "pip",
                     CallRunOptions(None, None, NoCapture), r)
    {
      var command := DownloadArguments(packages, dest, noDeps);
      r := Call(command, "pip", None, None, NoCapture);
    }

    /** `freeze` (lines 210-221): pip run with captured output, which is returned. */
    method Freeze(listFormat: Option<string> := None) returns (r: Result<string, Error>)
      requires Valid()
      modifies this, host
      ensures Valid() && compatibleTags == old(compatibleTags) && tagProbes == old(tagProbes)
      ensures binScripts == Some(BinDir(path, host.isNt))
      ensures host.existing == old(host.existing)
      ensures
        var programPath := ResolveProgram(path, "pip", host.isNt);
        var argv := [PathStr(programPath)] + FreezeArguments(listFormat);
        if programPath !in old(host.existing) then
          r == Err(ValueError("Unsupported program: " + PathStr(programPath))) && host.log == old(host.log)
        else
          && host.log == old(host.log) + [Spawn(argv, CallRunOptions(None, None, Flag(true)))]
          && (r.Ok? <==> host.exitStatus(argv) == 0)
          && (r.Ok? ==> r.value == host.outputOf(argv))
          && (r.Err? ==> r.error == CalledProcessError(host.exitStatus(argv), argv, Some(host.outputOf(argv)), None))
    {
      var completed := Call(FreezeArguments(listFormat), "pip", None, None, Flag(true));
      if completed.Err? {
        return Err(completed.error);
      }
      r := Ok(completed.value.stdout.value);
    }

    /** `compatible_wheel` (lines 174-191): an unparseable name fails before the tags
        are probed; otherwise the answer is whether some `python-abi-platform` triple of
        the name is among the supported tags. */
    method CompatibleWheel(wheelName: string) returns (r: Result<bool, Error>)
      requires Valid()
      modifies this
      ensures Valid() && binScripts == old(binScripts)
      ensures ParseWheelName(wheelName).None? ==>
        r == Err(TypeError(NotSubscriptable)) && compatibleTags == old(compatibleTags) && tagProbes == old(tagProbes)
      ensures ParseWheelName(wheelName).Some? ==>
        var w := ParseWheelName(wheelName).value;
        r == Ok(Compatible(w.pythonTag, w.abiTag, w.platformTag, host.sysTags))
        && compatibleTags == Some(host.sysTags) && tagProbes == 1
    {
      var details := ParseWheelName(wheelName);
      if details.None? {
        return Err(TypeError(NotSubscriptable));
      }
      var w := details.value;
      var possibleTags := CrossProduct(w.pythonTag, w.abiTag, w.platformTag);
      var tags := CompatibleTags();
      IntersectsIffCompatible(w.pythonTag, w.abiTag, w.platformTag, tags);
      r := Ok(possibleTags * tags != {});
    }

    /** `__repr__` (lines 148-163): the path, or `path=None` for a temporary environment,
        then `overwrite` and `system_site_packages` only when they were set, in that order. */
    method Repr() returns (s: string)
      ensures s == "VirtualEnvironmentManager("
        + ((if isTemp then "path=None" else "path=" + Quote(PathStr(path)))
           + (if overwrite then ", " + OverwriteParameter else "")
           + (if systemSitePackages then ", " + SystemSitePackagesParameter else ""))
        + ")"
    {
      var parameters: seq<string>;
      if isTemp {
        parameters := ["path=None"];
      } else {
        parameters := ["path=" + Quote(PathStr(path))];
      }
      ghost var joined := parameters[0];
      assert Join(parameters, ", ") == joined;
      ghost var optional := "";
      if overwrite {
        JoinAppend(parameters, OverwriteParameter, ", ");
        parameters := parameters + [OverwriteParameter];
        optional := ", " + OverwriteParameter;
      }
      assert Join(parameters, ", ") == joined + optional;
      joined := joined + optional;
      optional := "";
      if systemSitePackages {
        JoinAppend(parameters, SystemSitePackagesParameter, ", ");
        parameters := parameters + [SystemSitePackagesParameter];
        optional := ", " + SystemSitePackagesParameter;
      }
      assert Join(parameters, ", ") == joined + optional;
      s := "VirtualEnvironmentManager(" + Join(parameters, ", ") + ")";
    }
  }

  /** `VirtualEnvironmentManager(path, overwrite, system_site_packages)` (lines 111-146):
      construction followed by provisioning. The instance is returned when provisioning
      succeeds; otherwise its error is raised out of the construction. */
  method Create(host: Host, scratch: Path, pathArg: Option<PathArg> := Some(PathArg(false, ["venv"])),
                overwrite: bool := false, systemSitePackages: bool := false)
    returns (r: Result<VirtualEnvironmentManager, Error>)
    requires pathArg.None? ==> forall q :: q in host.existing ==> !Under(scratch, q)
    modifies host
    ensures var path := if pathArg.None? then scratch + ["venv"] else Absolute(host.cwd, pathArg.value);
      Provisioned(host, path, pathArg.None?, overwrite, systemSitePackages,
                  old(host.log), old(host.existing) + (if pathArg.None? then {scratch} else {}),
                  host.log, host.existing, if r.Ok? then Ok(()) else Err(r.error))
    ensures pathArg.None? ==>
      && |old(host.log)| + 2 <= |host.log|
      && host.log[|old(host.log)|] == RegisterAtexit(scratch)
      && host.log[|old(host.log)| + 1] == Spawn(VenvCommand(host.executable, scratch + ["venv"], systemSitePackages), VenvOptions())
    ensures r.Ok? ==> fresh(r.value) && r.value.host == host && r.value.Valid()
    ensures r.Ok? ==> r.value.path == (if pathArg.None? then scratch + ["venv"] else Absolute(host.cwd, pathArg.value))
    ensures r.Ok? ==> r.value.isTemp == pathArg.None? && r.value.path in host.existing
    ensures r.Ok? ==> r.value.overwrite == overwrite && r.value.systemSitePackages == systemSitePackages
    ensures r.Ok? ==>
      var path := if pathArg.None? then scratch + ["venv"] else Absolute(host.cwd, pathArg.value);
      var existing0 := old(host.existing) + (if pathArg.None? then {scratch} else {});
      r.value.binScripts == if CreatesEnvironment(host, path, overwrite, systemSitePackages, existing0)
                            then Some(BinDir(path, host.isNt)) else None
  {
    var m := new VirtualEnvironmentManager(host, pathArg, overwrite, systemSitePackages, scratch);
    var provisioned := m.Provision();
    if provisioned.Err? {
      return Err(provisioned.error);
    }
    ProvisionedPathExists(host, m.path, m.isTemp, overwrite, systemSitePackages,
                          old(host.log), old(host.existing) + (if pathArg.None? then {scratch} else {}),
                          host.log, host.existing, provisioned);
    r := Ok(m);
  }
}
