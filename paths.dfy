/** The `pathlib` operations the manager uses, on absolute POSIX paths held as their
    components (the root is the empty sequence). */
module Paths {
  import opened Strings

  /** The components of an absolute path, outermost first. */
  type Path = seq<string>

  /** A path argument: `rooted` when it starts with '/', then its components. */
  datatype PathArg = PathArg(rooted: bool, parts: seq<string>)

  /** `Path(arg).absolute()`: a relative path is put under the working directory,
      with no other normalisation. */
  function Absolute(cwd: Path, arg: PathArg): Path
  {
    if arg.rooted then arg.parts else cwd + arg.parts
  }

  /** `p / name` for a name without a separator: "" and "." leave the path as it is. */
  function Child(p: Path, name: string): Path
  {
    if name == "" || name == "." then p else p + [name]
  }

  /** `p.parent`: the root is its own parent. */
  function Parent(p: Path): Path
  {
    if |p| == 0 then p else p[..|p| - 1]
  }

  /** `p.parents`: every proper ancestor, the root included. */
  function Parents(p: Path): set<Path>
  {
    set i | 0 <= i < |p| :: p[..i]
  }

  /** `q` is one of `p.parents` exactly when it is a proper prefix of `p`. */
  lemma ParentsAreProperPrefixes(p: Path, q: Path)
    ensures q in Parents(p) <==> |q| < |p| && q == p[..|q|]
  {
  }

  /** `q` is `p` or lies below it: what `rmtree(p)` removes. */
  predicate Under(p: Path, q: Path)
  {
    |p| <= |q| && q[..|p|] == p
  }

  /** The virtual environment's scripts directory: `Scripts` on `nt`, `bin` elsewhere. */
  function BinDir(root: Path, isNt: bool): Path
  {
    root + [if isNt then "Scripts" else "bin"]
  }

  // ---------------------------------------------------------------------------
  // with_suffix

  /** Index of the last '.' in `s`, or -1. */
  function LastDot(s: string): (r: int)
    ensures -1 <= r < |s|
    ensures r >= 0 ==> s[r] == '.'
    ensures forall k :: r < k < |s| ==> s[k] != '.'
  {
    if |s| == 0 then -1
    else if s[|s| - 1] == '.' then |s| - 1
    else LastDot(s[..|s| - 1])
  }

  /** `PurePath.suffix` of a name: from its last '.', unless that dot leads or ends it. */
  function Suffix(name: string): string
  {
    var i := LastDot(name);
    if 0 < i < |name| - 1 then name[i..] else ""
  }

  /** `p.with_suffix(suffix)` on a path whose name is its last component. */
  function WithSuffix(p: Path, suffix: string): Path
    requires |p| >= 1
  {
    var name := p[|p| - 1];
    var current := Suffix(name);
    p[..|p| - 1] + [name[..|name| - |current|] + suffix]
  }

  /** A suffix `with_suffix` accepts: a dot, then at least one character, no other dot. */
  predicate ValidSuffix(suffix: string)
  {
    |suffix| >= 2 && suffix[0] == '.' && '.' !in suffix[1..]
  }

  /** The suffix of a name that ends with a valid suffix, after a non-empty stem, is that suffix. */
  lemma SuffixOfStemAndSuffix(stem: string, suffix: string)
    requires stem != "" && ValidSuffix(suffix)
    ensures Suffix(stem + suffix) == suffix
  {
    var name := stem + suffix;
    assert name[|stem|] == '.';
    forall k | |stem| < k < |name| ensures name[k] != '.' {
      assert name[k] == suffix[1..][k - |stem| - 1];
    }
    var i := LastDot(name);
    assert i == |stem|;
    assert name[i..] == suffix;
  }

  /** The stem `with_suffix` keeps of a non-empty name is non-empty: a suffix never
      starts at the first character. */
  lemma StemNonEmpty(name: string)
    requires name != ""
    ensures |Suffix(name)| < |name|
  {
    var i := LastDot(name);
    if 0 < i < |name| - 1 {
      assert |Suffix(name)| == |name| - i;
    }
  }

  /** Replacing the suffix twice is replacing it once, when the name is not empty. */
  lemma WithSuffixIdempotent(p: Path, suffix: string)
    requires |p| >= 1 && p[|p| - 1] != "" && ValidSuffix(suffix)
    ensures WithSuffix(WithSuffix(p, suffix), suffix) == WithSuffix(p, suffix)
  {
    var name := p[|p| - 1];
    var stem := name[..|name| - |Suffix(name)|];
    StemNonEmpty(name);
    var r := WithSuffix(p, suffix);
    assert r[|r| - 1] == stem + suffix;
    SuffixOfStemAndSuffix(stem, suffix);
    assert (stem + suffix)[..|stem + suffix| - |suffix|] == stem;
  }

  /** The program path `__call__` resolves: `bin_scripts / program`, with its suffix
      replaced by ".exe" on `nt`. */
  function ResolveProgram(root: Path, program: string, isNt: bool): Path
  {
    var p := Child(BinDir(root, isNt), program);
    if isNt then WithSuffix(p, ".exe") else p
  }

  /** A plain program name resolves to a file directly inside the scripts directory.
      Elsewhere the file is the name itself; on `nt` its suffix is ".exe" and the part of
      the name before its old suffix is kept. */
  lemma ResolveProgramInBinDir(root: Path, program: string, isNt: bool)
    requires program != "" && program != "."
    ensures var r := ResolveProgram(root, program, isNt);
      && |r| == |root| + 2 && Parent(r) == BinDir(root, isNt)
      && (!isNt ==> r[|root| + 1] == program)
      && (isNt ==> Suffix(r[|root| + 1]) == ".exe"
                   && r[|root| + 1][..|r[|root| + 1]| - 4] == program[..|program| - |Suffix(program)|])
  {
    if isNt {
      var p := Child(BinDir(root, isNt), program);
      var stem := program[..|program| - |Suffix(program)|];
      StemNonEmpty(program);
      assert WithSuffix(p, ".exe")[|root| + 1] == stem + ".exe";
      SuffixOfStemAndSuffix(stem, ".exe");
      assert (stem + ".exe")[..|stem + ".exe"| - 4] == stem;
    }
  }

  // ---------------------------------------------------------------------------
  // Rendering

  /** `str(p)` on POSIX: '/' followed by the components joined with '/'. */
  function PathStr(p: Path): string
  {
    "/" + Join(p, "/")
  }

  /** A rendered path with at least one slash-free component gives its components back. */
  lemma PathStrRoundTrip(p: Path)
    requires |p| >= 1 && forall i :: 0 <= i < |p| ==> '/' !in p[i]
    ensures |PathStr(p)| >= 1 && PathStr(p)[0] == '/'
    ensures Split(PathStr(p)[1..], '/') == p
  {
    assert PathStr(p)[1..] == Join(p, ['/']);
    SplitJoin(p, '/');
  }
}
