# VirtualEnvironmentManager, modelled in Dafny

This project models `VirtualEnvironmentManager` from `devautotools/__init__.py`. That class
manages a local Python virtual environment and does four things:

- It creates the environment on construction. It can first remove an old one under
  `overwrite`, but refuses to remove the running interpreter's own tree.
- It runs programs from the environment's scripts directory: `__call__`, `install`,
  `download` and `freeze`.
- It parses wheel file names with the regular expression `WHEEL_NAMING_CONVENTION`.
- It decides whether a wheel is compatible with the platform's supported tags.

The project has these modules:

- `wrappers.dfy`: the `Option` and `Result` datatypes.
- `strings.dfy`: Python's `sep.join` and `s.split(c)`, with their round trips.
- `paths.dfy`: the `pathlib` operations used. These are absolute paths as component
  sequences, `parents`, the `Scripts`/`bin` directory, `with_suffix('.exe')` and `str()`.
- `process.dfy`: the host the manager acts on. It has an abstract set of existing
  paths and a log of effects: `subprocess.run`, `rmtree` and `atexit.register`. What a
  child process does is given by three oracles, all functions of the argument vector:
  its exit status, its standard output and its standard error. This module also holds the options `__call__`
  passes to `subprocess.run`.
- `pip_commands.dfy`: the argument lists of `install`, `download` and `freeze`.
- `wheel_name.dfy`: the semantics of `re.match(WHEEL_NAMING_CONVENTION, name)`.
  - `IsMatch` describes every way the pattern can match a prefix of the name, and
    `Precedes` is the order in which a backtracking engine tries those ways. Every group
    is greedy, so that order is lexicographic on the group ends.
  - A right-to-left scan, `FirstMatch`, is proved to report the first match in that
    order, or none exactly when there is none.
  - `ParseWheelName` then splits the three tag fields on '.'.
- `compatibility.dfy`: the candidate tag set of `compatible_wheel` and its
  intersection test.
- `manager.dfy`: the class itself. It has the lazily stored attributes `bin_scripts`
  and `compatible_tags`, construction and provisioning, and the pip commands. Python's
  keyword defaults are the Dafny parameters' defaults: `path='venv'` in `Create`,
  `program='python'` in `Call`, `dest='.'` and `no_deps=True` in `Download`, and `False`
  or `None` elsewhere.

Python's regular-expression semantics are followed exactly:

- `.` matches any character but '\n'.
- `[^-]` matches '\n'.
- `re.match` anchors at the start only, so text after ".whl" is allowed.

Two consequences follow, and they differ from the naive reading of the pattern:

- The greedy distribution group swallows what looks like a build tag. For example,
  `pkg-1.0-1-py3-none-any.whl` has distribution "pkg-1.0" and version "1".
- A build tag is captured only when the version field contains a newline
  (`ExampleBuildTagAfterNewline`, `NoBuildTagWithoutNewline`).

Some names and messages in the source promise more than its code does. The model
follows the code:

- The docstring of `parse_wheel_name` (line 258) says the name is parsed according to
  PEP 491, which describes a whole file name. `re_match` (line 264) matches a prefix,
  so trailing text is accepted (`TrailingTextKeepsMatch`, `TrailingTextKeepsParse`,
  `ExampleTrailingText`).
- The pattern names a `build_tag` group (line 37), but for the reasons above it is
  filled only when the version field holds a newline.
- The self-deletion guard (line 134) tests `self.path in Path(executable).parents`.
  That holds for proper ancestors of the executable only, not for the executable's
  own path (`Paths.Parents`).
- `__exit__` (lines 82-91) logs "Ignoring exception in context" but returns `None`, so
  an exception raised in a `with` block propagates. The method has no effect beyond
  that log line, which is not modelled.

## Model

| member | source | states |
|---|---|---|
| Strings.Split | devautotools/__init__.py:269 | `str.split('.')`: never empty, no piece holds the separator, every character of a piece comes from the string |
| Strings.JoinSplit | devautotools/__init__.py:269-273 | joining the pieces of a split with the separator gives the string back |
| Strings.SplitJoin | devautotools/__init__.py:269-273 | splitting a join of separator-free pieces gives the pieces back |
| Strings.JoinAppend | devautotools/__init__.py:163 | `', '.join` of one more parameter appends the separator and the parameter |
| Paths.ParentsAreProperPrefixes | devautotools/__init__.py:134 | `q in p.parents` exactly when `q` is a proper prefix of `p` |
| Paths.LastDot | devautotools/__init__.py:53 | the index found is the last '.' of the name, or -1 when there is none |
| Paths.SuffixOfStemAndSuffix | devautotools/__init__.py:53 | the suffix of a non-empty stem followed by a valid suffix is that suffix |
| Paths.WithSuffixIdempotent | devautotools/__init__.py:53 | replacing the suffix twice equals replacing it once |
| Paths.ResolveProgramInBinDir | devautotools/__init__.py:51-53 | a plain program name resolves to a child of `Scripts`/`bin`; off `nt` the child keeps the name; on `nt` its suffix is ".exe" and the name's stem is kept |
| Paths.PathStrRoundTrip | devautotools/__init__.py:172 | `str(path)` starts with '/' and splitting the rest on '/' gives the components back |
| Process.CallRunOptions | devautotools/__init__.py:56-69 | always `check=True`; no redirection without capture; with capture stderr goes into stdout as text, and stdout is a pipe exactly for `capture_output=True`, otherwise the given object |
| Process.CallOptions | devautotools/__init__.py:56-69 | the dictionary built by the source's updates equals `CallRunOptions` |
| Process.Host.Outcome | devautotools/__init__.py:69-71 | `run` raises `CalledProcessError` exactly when `check` is set and the status is non-zero; the error carries the status, the argument vector, the output and the separate stderr; stdout is kept exactly when it goes to a pipe (`capture_output=True`, or `PIPE` passed through), stderr apart exactly under `capture_output=True`; both are kept in the result or in the error |
| Process.CallCaptures | devautotools/__init__.py:62-69 | `__call__` keeps the output exactly for `capture_output=True` and `capture_output=PIPE`, and never keeps stderr apart from it |
| Process.Host.Run | devautotools/__init__.py:71 | one spawn is logged whatever the outcome, and the filesystem is unchanged |
| Process.Host.RemoveTree | devautotools/__init__.py:136 | `rmtree(p)` removes `p` and everything below it and nothing else |
| Process.Host.RegisterCleanup | devautotools/__init__.py:144 | `atexit_register` only records the cleanup and removes nothing now |
| PipCommands.Selected | devautotools/__init__.py:234-241 | the selected switches are at most the given ones and each comes from them |
| PipCommands.SelectedMembers | devautotools/__init__.py:234-241 | a switch appears exactly when it is on |
| PipCommands.SelectedOrder | devautotools/__init__.py:234-241 | selected switches keep their relative order |
| PipCommands.InstallArguments | devautotools/__init__.py:234-241 | "install", then the switches that are on in the source's order, then the packages |
| PipCommands.DownloadArguments | devautotools/__init__.py:203-206 | "download --dest <dest>", "--no-deps" exactly when requested, then the packages |
| PipCommands.FreezeArguments | devautotools/__init__.py:218-221 | "freeze" exactly when no format is given, otherwise exactly "list --format <format>" |
| PipCommands.InstallSwitchesSelected | devautotools/__init__.py:234-241 | each `install` switch appears exactly when requested, and there are as many switches as requested |
| WheelNames.PrecedesTotal | devautotools/__init__.py:37 | any two different ways of matching are ordered by the engine |
| WheelNames.PlatformEndLongest | devautotools/__init__.py:37 | the greedy platform tag ends at or after every platform tag that can end in ".whl" |
| WheelNames.TagsFromGreedy | devautotools/__init__.py:37 | whenever the three tag groups can match, the engine's first choice has the same python and abi tags and a platform tag at least as long |
| WheelNames.MatchAtFirst | devautotools/__init__.py:37 | for a fixed distribution end, `MatchAt` finds a way of matching the rest, and none that can match comes before it |
| WheelNames.ScanFirst | devautotools/__init__.py:37 | no match with a distribution ending at or before `d` comes before what the scan from `d` reports |
| WheelNames.FirstMatchIsFirst | devautotools/__init__.py:264 | `re.match` finds no match exactly when the pattern cannot match, and otherwise the first match in backtracking order |
| WheelNames.ParseWheelName | devautotools/__init__.py:256-275 | `None` exactly when the pattern matches no prefix; otherwise the groups of the first match with the tag fields split on '.' |
| WheelNames.BuildTagNeedsNewline | devautotools/__init__.py:37 | the reported match takes a build tag only when the version holds a newline |
| WheelNames.ParseIsWellFormed | devautotools/__init__.py:264-273 | every parse result has a non-empty newline-free distribution, a non-empty dash-free version, a build tag only with a newline in the version, and non-empty dash-free tag lists |
| WheelNames.RenderParses | devautotools/__init__.py:264-273 | parsing the rendering of a well-formed name gives that name back |
| WheelNames.ParseRoundTrip | devautotools/__init__.py:264-273 | re-joining the fields of a parse result re-parses to the same result |
| WheelNames.NoBuildTagWithoutNewline | devautotools/__init__.py:37 | a name without a newline never yields a build tag |
| WheelNames.NoWhlNoMatch | devautotools/__init__.py:37 | a name holding no ".whl" does not parse |
| WheelNames.FewDashesNoMatch | devautotools/__init__.py:37 | a name with fewer than four dashes after its first character does not parse |
| WheelNames.ExampleGreedyDistribution | devautotools/__init__.py:256-275 | `pkg-1.0-1-py3-none-any.whl` parses with distribution "pkg-1.0", version "1" and no build tag |
| WheelNames.ExampleCompressedTags | devautotools/__init__.py:268-269 | `pkg-2.0-py2.py3-none-any.whl` has python tags ["py2", "py3"] |
| WheelNames.ExampleBuildTagAfterNewline | devautotools/__init__.py:37 | a newline in the version lets the build tag "7" be captured |
| WheelNames.ExamplePlain | devautotools/__init__.py:37 | `pkg-1.0-py3-none-any.whl` parses into its five fields, with no build tag |
| WheelNames.TrailingTextKeepsMatch | devautotools/__init__.py:264 | `re.match` anchors at the start only: appending any text to a name that parses leaves it parsing |
| WheelNames.TrailingTextKeepsParse | devautotools/__init__.py:264-273 | text appended to a name, in which no further ".whl" begins, leaves the parse result exactly as it was, `None` included |
| WheelNames.ExampleTrailingText | devautotools/__init__.py:264-273 | `pkg-1.0-py3-none-any.whl.asc` parses to the same fields as `pkg-1.0-py3-none-any.whl` |
| Compatibility.Tags3Members | devautotools/__init__.py:185-189 | a tag is a candidate exactly when it joins one python, one abi and one platform alternative with '-' |
| Compatibility.CrossProduct | devautotools/__init__.py:185-189 | the nested loops accumulate exactly the candidate set |
| Compatibility.IntersectsIffCompatible | devautotools/__init__.py:191 | the intersection is non-empty exactly when some candidate triple is supported |
| Compatibility.CompatibleMonotone | devautotools/__init__.py:191 | more supported tags never make a compatible wheel incompatible |
| Compatibility.Tags3Size | devautotools/__init__.py:185-189 | there are at most m·n·k candidates |
| Compatibility.CombineInjective | devautotools/__init__.py:189 | joining dash-free fields with '-' is injective |
| Compatibility.Tags3ExactSize | devautotools/__init__.py:185-189 | with distinct, dash-free alternatives there are exactly m·n·k candidates |
| Manager.VirtualEnvironmentManager.constructor | devautotools/__init__.py:120-131 | the path is absolute, or `venv` inside the new temporary directory, which `mkdtemp` creates with nothing below it, so the environment's path does not exist yet; nothing is run or computed yet |
| Manager.VirtualEnvironmentManager.ClearForOverwrite | devautotools/__init__.py:133-136 | under `overwrite` an existing path is removed with its subtree, unless it is an ancestor of the interpreter, which raises `RuntimeError` with nothing removed |
| Manager.VirtualEnvironmentManager.CreateEnvironment | devautotools/__init__.py:139-146 | for an absent path: the temporary directory's cleanup is registered, `venv` runs with its options, then pip is upgraded through `__call__`, which stores `bin_scripts`; exact log, filesystem and result for the `venv` failure and the bootstrap outcomes |
| Manager.VirtualEnvironmentManager.CreateIfAbsent | devautotools/__init__.py:138-146 | an existing path is left alone with nothing run; otherwise what `CreateEnvironment` states: exact log, filesystem, stored `bin_scripts` and result on each outcome |
| Manager.VirtualEnvironmentManager.Provision | devautotools/__init__.py:133-146 | ends in the state `Provisioned` describes: reuse without `overwrite` is `Ok` with nothing run; the guard raises `RuntimeError` with no `rmtree`; otherwise the exact log and paths, and the result is the `venv` error, else the pip bootstrap error, else `Ok`; `bin_scripts` is stored exactly when a `venv` run succeeds (`CreatesEnvironment`) |
| Manager.ProvisionedPathExists | devautotools/__init__.py:133-146 | whenever provisioning succeeds, the environment's path exists |
| Manager.ProvisionedIsSafe | devautotools/__init__.py:133-137 | provisioning only appends to the log, removes only the environment's own tree, only under `overwrite` and never an ancestor of the interpreter, and keeps every path outside that tree |
| Manager.VirtualEnvironmentManager.BinScripts | devautotools/__init__.py:101-102 | `bin_scripts` is `path/Scripts` on `nt` and `path/bin` elsewhere, and it is stored |
| Manager.VirtualEnvironmentManager.CompatibleTags | devautotools/__init__.py:103-104 | `compatible_tags` is the set of supported tags; `sys_tags()` is consulted once per instance |
| Manager.VirtualEnvironmentManager.Attribute | devautotools/__init__.py:93-109 | the two lazy attributes are computed and stored; any other name raises `AttributeError(name)` and changes nothing |
| Manager.VirtualEnvironmentManager.StrNamesPath | devautotools/__init__.py:172 | `str(self)` gives back the environment's path components |
| Manager.VirtualEnvironmentManager.Call | devautotools/__init__.py:39-71 | a missing program raises `ValueError` with nothing run; otherwise the resolved program runs once with the arguments and the options of `CallRunOptions` |
| Manager.VirtualEnvironmentManager.Install | devautotools/__init__.py:223-243 | one `__call__` of pip with `InstallArguments`'s command; `bin_scripts` ends up stored |
| Manager.VirtualEnvironmentManager.Download | devautotools/__init__.py:193-208 | one `__call__` of pip with `DownloadArguments`'s command; `bin_scripts` ends up stored |
| Manager.VirtualEnvironmentManager.Freeze | devautotools/__init__.py:210-221 | pip runs with captured output; the result is that output exactly when the status is zero, otherwise `CalledProcessError` carrying the status, the argument vector and the output; `bin_scripts` ends up stored |
| Manager.VirtualEnvironmentManager.CompatibleWheel | devautotools/__init__.py:174-191 | an unparseable name raises `TypeError` before the tags are probed; otherwise whether some python-abi-platform triple is supported |
| Manager.VirtualEnvironmentManager.Repr | devautotools/__init__.py:148-163 | `VirtualEnvironmentManager(path=…[, overwrite=True][, system_site_packages=True])`, in that order |
| Manager.Create | devautotools/__init__.py:111-146 | the path is the scratch directory's "venv" without a path argument and the absolute path otherwise; construction ends in the state `Provisioned` describes, fails exactly when provisioning fails and with its error, and otherwise returns a fresh, valid instance with that path, which exists, the flags given, and `bin_scripts` stored exactly when the environment was created; a temporary instance always registers removal of its scratch directory and then runs `venv` |

## Left out

- I/O, the clock and randomness are not modelled. The filesystem is a set of existing
  paths. A child process is given by the oracles `exitStatus`, `outputOf` and `errorOf`,
  which depend only on the argument vector, so a run cannot change the filesystem beyond
  what `venv` creates.
- Manager.VirtualEnvironmentManager.CreateEnvironment: a successful `venv` run is assumed
  to create the root, its scripts directory and the `python` and `pip` launchers
  (`VenvLayout`). What else it creates, and what pip changes, is not modelled.
- Process.Host.RemoveTree: `rmtree` is modelled as always succeeding; permission
  errors are not modelled.
- Paths: paths are absolute POSIX component sequences. `absolute()` does no other
  normalisation ("..", duplicated separators). A program name holding '/' is not
  modelled. Windows path rendering (drive letters, backslashes) is not modelled, though
  the `nt` choices of `Scripts` and ".exe" are.
- Paths.WithSuffix: follows the `suffix` rule of `pathlib` for a name. The errors
  `with_suffix` raises for an empty name or an invalid suffix are not modelled, because
  ".exe" is valid and the scripts directory gives a non-empty name.
- Manager.Quote: `repr()` of a path is modelled as the path in single quotes. Escaping
  of quotes, backslashes and unprintable characters is not modelled.
- Manager.VirtualEnvironmentManager.Repr: `overwrite` and `system_site_packages` are
  booleans, so a truthy non-bool argument (shown by `repr` as itself) is not modelled.
  The same holds for the truth tests of the flags elsewhere.
- Process.CallRunOptions: `capture_output=False` and other objects are passed through
  as the stdout object, as the code does. `Captures` then keeps the output only for
  `PIPE` (the integer -1). Files, descriptors and `DEVNULL` lose it, as in Python; where
  a file's contents end up is not modelled.
- Process.Host.Outcome: with stderr merged into stdout, the captured text is the single
  oracle value `outputOf(argv)`; how the two streams interleave is not modelled.
- `modules` (lines 245-253) is not modelled, because it parses JSON output.
- `__enter__` and `__exit__` (lines 73-91) are not modelled. The first returns the
  instance; the second only logs, and errors propagate.
- Logging is not modelled. `deploy_local_venv` and the other module-level functions
  after line 276 are not part of this model.
- `sys_tags()` is the host's constant `sysTags`, and `mkdtemp()` is the `scratch`
  parameter of the constructor. What `mkdtemp` guarantees, a new name with nothing at
  or below it, is the constructor's precondition for a temporary instance.
- Manager.VirtualEnvironmentManager.CompatibleWheel: the `TypeError` message is modelled
  as a fixed string, not Python's exact wording.
