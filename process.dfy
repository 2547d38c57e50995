/** What the manager asks of its host: `subprocess.run`, `rmtree`, `atexit.register`
    and `Path.exists`, recorded as events over an abstract set of existing paths. */
module Process {
  import opened Wrappers
  import opened Paths

  /** The `capture_output` argument of `__call__`: absent, a `bool`, or any other
      object (a file, a descriptor), which stands for itself. */
  datatype Capture = NoCapture | Flag(on: bool) | Sink(handle: int)

  /** Where a stream of the child goes. */
  datatype Redirect = Inherit | Pipe | MergeIntoStdout | PassThrough(value: Capture)

  /** The keyword arguments of one `subprocess.run` call. */
  datatype RunOptions = RunOptions(
    cwd: Option<string>,
    env: Option<map<string, string>>,
    check: bool,
    captureOutput: bool,
    stdout: Redirect,
    stderr: Redirect,
    text: Option<bool>)

  /** The `CompletedProcess` of a run; each stream is present when it was captured. */
  datatype Completed = Completed(argv: seq<string>, status: int, stdout: Option<string>, stderr: Option<string>)

  /** The exceptions the core raises, or lets through from `subprocess.run`. */
  datatype Error =
    | ValueError(message: string)
    | RuntimeError(message: string)
    | AttributeError(name: string)
    | TypeError(message: string)
    | CalledProcessError(status: int, argv: seq<string>, output: Option<string>, stderr: Option<string>)

  /** One effect on the host, in the order it happens. */
  datatype Event =
    | Rmtree(path: Path)
    | RegisterAtexit(path: Path)
    | Spawn(argv: seq<string>, opts: RunOptions)

  /** The options `__call__` passes to `subprocess.run` (lines 56-69): always
      `check=True`; with no capture nothing is redirected; a capture merges stderr into
      stdout as text, and stdout is a pipe exactly for `capture_output=True`. */
  function CallRunOptions(cwd: Option<string>, env: Option<map<string, string>>, capture: Capture): (o: RunOptions)
    ensures o.cwd == cwd && o.env == env && o.check && !o.captureOutput
    ensures capture.NoCapture? ==> o.stdout == Inherit && o.stderr == Inherit && o.text == None
    ensures !capture.NoCapture? ==> o.stderr == MergeIntoStdout && o.text == Some(true)
    ensures o.stdout == Pipe <==> capture == Flag(true)
    ensures !capture.NoCapture? && capture != Flag(true) ==> o.stdout == PassThrough(capture)
  {
    match capture
    case NoCapture => RunOptions(cwd, env, true, false, Inherit, Inherit, None)
    case Flag(true) => RunOptions(cwd, env, true, false, Pipe, MergeIntoStdout, Some(true))
    case _ => RunOptions(cwd, env, true, false, PassThrough(capture), MergeIntoStdout, Some(true))
  }

  /** The `run_args` dictionary of `__call__`, built by the same updates as the source. */
  method CallOptions(cwd: Option<string>, env: Option<map<string, string>>, capture: Capture) returns (o: RunOptions)
    ensures o == CallRunOptions(cwd, env, capture)
  {
    o := RunOptions(cwd, env, true, false, Inherit, Inherit, None);
    if !capture.NoCapture? {
      o := o.(stderr := MergeIntoStdout, text := Some(true));
      if capture.Flag? && capture.on {
        o := o.(stdout := Pipe);
      } else {
        o := o.(stdout := PassThrough(capture));
      }
    }
  }

  /** `subprocess.PIPE`, an integer that may also be passed as `capture_output`. */
  const PipeHandle: int := -1

  /** The standard output of a run is kept when it goes to a pipe: through
      `capture_output=True`, `stdout=PIPE`, or `PIPE` passed through as its integer. */
  predicate Captures(o: RunOptions)
  {
    o.captureOutput || o.stdout == Pipe || o.stdout == PassThrough(Sink(PipeHandle))
  }

  /** The standard error of a run is kept on its own only under `capture_output=True`;
      merged into stdout it travels with the standard output. */
  predicate CapturesStderr(o: RunOptions)
  {
    o.captureOutput || o.stderr == Pipe
  }

  /** Under `__call__` the output is kept exactly for `capture_output=True` and for
      `capture_output=PIPE`; stderr is then merged into it and never kept apart. */
  lemma CallCaptures(cwd: Option<string>, env: Option<map<string, string>>, capture: Capture)
    ensures Captures(CallRunOptions(cwd, env, capture)) <==> capture == Flag(true) || capture == Sink(PipeHandle)
    ensures !CapturesStderr(CallRunOptions(cwd, env, capture))
  {
  }

  /** The machine the manager runs on. What a child process does is given by the
      oracles `exitStatus`, `outputOf` (its standard output, stderr included when the two
      are merged) and `errorOf` (its standard error); `existing` is the set of paths that
      exist. */
  class Host {
    const isNt: bool
    const executable: Path
    const cwd: Path
    const sysTags: set<string>
    const exitStatus: seq<string> -> int
    const outputOf: seq<string> -> string
    const errorOf: seq<string> -> string
    var existing: set<Path>
    var log: seq<Event>

    constructor(isNt: bool, executable: Path, cwd: Path, sysTags: set<string>,
                exitStatus: seq<string> -> int, outputOf: seq<string> -> string,
                errorOf: seq<string> -> string, existing: set<Path>)
      ensures this.isNt == isNt && this.executable == executable && this.cwd == cwd
      ensures this.sysTags == sysTags && this.exitStatus == exitStatus && this.outputOf == outputOf
      ensures this.errorOf == errorOf
      ensures this.existing == existing && log == []
    {
      this.isNt := isNt;
      this.executable := executable;
      this.cwd := cwd;
      this.sysTags := sysTags;
      this.exitStatus := exitStatus;
      this.outputOf := outputOf;
      this.errorOf := errorOf;
      this.existing := existing;
      log := [];
    }

    /** What `subprocess.run(argv, **opts)` returns or raises: the captured output
        travels with the result, or with the `CalledProcessError` that `check` raises. */
    function Outcome(argv: seq<string>, opts: RunOptions): (r: Result<Completed, Error>)
      ensures r.Err? <==> opts.check && exitStatus(argv) != 0
      ensures r.Err? ==> r.error.CalledProcessError? && r.error.status == exitStatus(argv) && r.error.argv == argv
      ensures r.Ok? ==> r.value.argv == argv && r.value.status == exitStatus(argv)
      ensures Captures(opts) ==> (if r.Ok? then r.value.stdout else r.error.output) == Some(outputOf(argv))
      ensures !Captures(opts) ==> (if r.Ok? then r.value.stdout else r.error.output) == None
      ensures CapturesStderr(opts) ==> (if r.Ok? then r.value.stderr else r.error.stderr) == Some(errorOf(argv))
      ensures !CapturesStderr(opts) ==> (if r.Ok? then r.value.stderr else r.error.stderr) == None
    {
      var status := exitStatus(argv);
      var output := if Captures(opts) then Some(outputOf(argv)) else None;
      var stderr := if CapturesStderr(opts) then Some(errorOf(argv)) else None;
      if opts.check && status != 0 then Err(CalledProcessError(status, argv, output, stderr))
      else Ok(Completed(argv, status, output, stderr))
    }

    /** `subprocess.run`: the spawn is recorded whatever its outcome. */
    method Run(argv: seq<string>, opts: RunOptions) returns (r: Result<Completed, Error>)
      modifies this
      ensures log == old(log) + [Spawn(argv, opts)] && existing == old(existing)
      ensures r == Outcome(argv, opts)
    {
      log := log + [Spawn(argv, opts)];
      r := Outcome(argv, opts);
    }

    /** `rmtree(p)`: `p` and everything below it stop existing. */
    method RemoveTree(p: Path)
      modifies this
      ensures existing == set q | q in old(existing) && !Under(p, q)
      ensures log == old(log) + [Rmtree(p)]
    {
      existing := set q | q in existing && !Under(p, q);
      log := log + [Rmtree(p)];
    }

    /** `atexit_register(rmtree, p, ignore_errors=True)`: only recorded, nothing is removed now. */
    method RegisterCleanup(p: Path)
      modifies this
      ensures existing == old(existing) && log == old(log) + [RegisterAtexit(p)]
    {
      log := log + [RegisterAtexit(p)];
    }
  }
}
