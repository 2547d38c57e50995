/** The wheel file-name parser of `VirtualEnvironmentManager.parse_wheel_name`.

    The source matches `WHEEL_NAMING_CONVENTION` with `re.match`, i.e. anchored at the
    start only, then splits the three tag fields on '.' (the compressed tag sets of
    PEP 425). This module states the pattern's semantics declaratively -- every way the
    pattern can match (`IsMatch`) and the order in which a backtracking engine tries them
    (`Precedes`) -- and computes the match the engine reports by a right-to-left scan
    (`FirstMatch`), proved to be the first match in that order. */
module WheelNames {
  import opened Wrappers
  import opened Strings

  /** The `groupdict()` of a successful match, with the tag fields split on '.'. */
  datatype WheelName = WheelName(
    distribution: string,
    version: string,
    buildTag: Option<string>,
    pythonTag: seq<string>,
    abiTag: seq<string>,
    platformTag: seq<string>)

  /** One way the pattern can match `s`: the distribution is `s[..dist]`, the version
      `s[dist + 1..ver]`, the optional build tag `s[ver + 1..build]`, the python tag
      `s[TagStart()..py]`, the abi tag `s[py + 1..abi]` and the platform tag
      `s[abi + 1..plat]`, with ".whl" at `s[plat..plat + 4]`. */
  datatype Cuts = Cuts(dist: nat, ver: nat, build: Option<nat>, py: nat, abi: nat, plat: nat)
  {
    function TagStart(): nat
    {
      if build.Some? then build.value + 1 else ver + 1
    }
  }

  predicate DashFree(s: string, i: nat, j: nat)
    requires i <= j <= |s|
  {
    forall k :: i <= k < j ==> s[k] != '-'
  }

  /** `(?P<distribution>.+)` can cover `s[..j]`: `.` matches anything but a newline. */
  predicate NewlineFree(s: string, j: nat)
    requires j <= |s|
  {
    forall k :: 0 <= k < j ==> s[k] != '\n'
  }

  /** `[^-]+` covers `s[i..j]` and the next `-` of the pattern matches `s[j]`. */
  predicate DashField(s: string, i: nat, j: nat)
  {
    i < j < |s| && DashFree(s, i, j) && s[j] == '-'
  }

  /** `(?P<platform_tag>[^-]+)\.whl` with the platform tag at `s[q..p]`. */
  predicate PlatformAt(s: string, q: nat, p: nat)
  {
    q < p && p + 4 <= |s| && DashFree(s, q, p) && WhlAt(s, p)
  }

  /** `(?P<python_tag>[^-]+)-(?P<abi_tag>[^-]+)-(?P<platform_tag>[^-]+)\.whl` from `start` on. */
  predicate TagFields(s: string, start: nat, py: nat, abi: nat, plat: nat)
  {
    DashField(s, start, py) && DashField(s, py + 1, abi) && PlatformAt(s, abi + 1, plat)
  }

  /** Everything of the pattern after the distribution group. */
  predicate TailMatch(s: string, m: Cuts)
  {
    && DashField(s, m.dist + 1, m.ver)
    && (m.build.Some? ==> DashField(s, m.ver + 1, m.build.value))
    && TagFields(s, m.TagStart(), m.py, m.abi, m.plat)
  }

  /** `m` is a way the whole pattern matches a prefix of `s`. */
  predicate IsMatch(s: string, m: Cuts)
  {
    1 <= m.dist < |s| && NewlineFree(s, m.dist) && s[m.dist] == '-' && TailMatch(s, m)
  }

  /** The optional build group is greedy: taking it is tried first, longer runs first. */
  predicate BuildFirst(x: Option<nat>, y: Option<nat>)
  {
    (x.Some? && y.None?) || (x.Some? && y.Some? && x.value > y.value)
  }

  /** `a` is tried before `b` by the backtracking engine: every group is greedy, so
      the order is lexicographic on the group ends, larger ends first. */
  predicate Precedes(a: Cuts, b: Cuts)
  {
    || a.dist > b.dist
    || (a.dist == b.dist && a.ver > b.ver)
    || (a.dist == b.dist && a.ver == b.ver && BuildFirst(a.build, b.build))
    || (a.dist == b.dist && a.ver == b.ver && a.build == b.build && a.py > b.py)
    || (a.dist == b.dist && a.ver == b.ver && a.build == b.build && a.py == b.py && a.abi > b.abi)
    || (a.dist == b.dist && a.ver == b.ver && a.build == b.build && a.py == b.py && a.abi == b.abi
        && a.plat > b.plat)
  }

  /** The match `re.match` reports: a match that no other match precedes. */
  ghost predicate IsFirstMatch(s: string, m: Cuts)
  {
    IsMatch(s, m) && forall m' :: IsMatch(s, m') ==> !Precedes(m', m)
  }

  lemma PrecedesTotal(a: Cuts, b: Cuts)
    requires a != b
    ensures Precedes(a, b) || Precedes(b, a)
  {
  }

  // ---------------------------------------------------------------------------
  // The scan

  /** End of the run of non-dash characters starting at `i`. */
  function RunEnd(s: string, i: nat): (j: nat)
    requires i <= |s|
    ensures i <= j <= |s| && DashFree(s, i, j)
    ensures j < |s| ==> s[j] == '-'
    decreases |s| - i
  {
    if i == |s| || s[i] == '-' then i else RunEnd(s, i + 1)
  }

  /** A dash-free field ended by a dash is the whole run from its start. */
  lemma RunEndOfField(s: string, i: nat, j: nat)
    requires DashField(s, i, j)
    ensures RunEnd(s, i) == j
  {
  }

  /** Length of the longest newline-free prefix: the most `.+` can cover. */
  function NewlineFreeLength(s: string, i: nat): (j: nat)
    requires i <= |s|
    requires NewlineFree(s, i)
    ensures i <= j <= |s| && NewlineFree(s, j)
    ensures j < |s| ==> s[j] == '\n'
    decreases |s| - i
  {
    if i == |s| || s[i] == '\n' then i else NewlineFreeLength(s, i + 1)
  }

  /** ".whl" stands at `s[p..p + 4]`. */
  predicate WhlAt(s: string, p: nat)
  {
    p + 4 <= |s| && s[p] == '.' && s[p + 1] == 'w' && s[p + 2] == 'h' && s[p + 3] == 'l'
  }

  /** The largest `p` in `lo + 1 .. k` with ".whl" at `s[p..p + 4]`. */
  function LastWhl(s: string, lo: nat, k: nat): (r: Option<nat>)
    requires k + 4 <= |s|
    ensures r.Some? ==> lo < r.value <= k && WhlAt(s, r.value)
    decreases k
  {
    if k <= lo then None
    else if WhlAt(s, k) then Some(k)
    else LastWhl(s, lo, k - 1)
  }

  /** No ".whl" in `lo + 1 .. k` lies after the one `LastWhl` finds. */
  lemma {:induction false} LastWhlIsLast(s: string, lo: nat, k: nat, p: nat)
    requires k + 4 <= |s| && lo < p <= k && WhlAt(s, p)
    ensures LastWhl(s, lo, k).Some? && p <= LastWhl(s, lo, k).value
    decreases k
  {
    if !WhlAt(s, k) {
      LastWhlIsLast(s, lo, k - 1, p);
    }
  }

  /** The greedy platform tag from `q`: the longest dash-free run followed by ".whl". */
  function PlatformEnd(s: string, q: nat): (r: Option<nat>)
    requires q <= |s|
    ensures r.Some? ==> PlatformAt(s, q, r.value)
  {
    var e := RunEnd(s, q);
    if e < q + 5 then None else LastWhl(s, q, e - 4)
  }

  /** Every platform tag that can stand at `q` ends no later than the one `PlatformEnd` takes. */
  lemma PlatformEndLongest(s: string, q: nat, p: nat)
    requires q <= |s| && PlatformAt(s, q, p)
    ensures PlatformEnd(s, q).Some? && p <= PlatformEnd(s, q).value
  {
    var e := RunEnd(s, q);
    assert p + 4 <= e;
    LastWhlIsLast(s, q, e - 4, p);
  }

  /** The three tag groups from `start` on, as the engine matches them. */
  function TagsFrom(s: string, start: nat): (r: Option<(nat, nat, nat)>)
    requires start <= |s|
    ensures r.Some? ==> TagFields(s, start, r.value.0, r.value.1, r.value.2)
  {
    var py := RunEnd(s, start);
    if !(start < py < |s|) then None
    else
      var abi := RunEnd(s, py + 1);
      if !(py + 1 < abi < |s|) then None
      else
        match PlatformEnd(s, abi + 1)
        case None => None
        case Some(plat) => Some((py, abi, plat))
  }

  /** Whenever the three tag groups can match from `start`, `TagsFrom` finds them,
      with the platform tag as long as it can be. */
  lemma TagsFromGreedy(s: string, start: nat, py: nat, abi: nat, plat: nat)
    requires start <= |s| && TagFields(s, start, py, abi, plat)
    ensures var r := TagsFrom(s, start);
      r.Some? && r.value.0 == py && r.value.1 == abi && plat <= r.value.2
  {
    RunEndOfField(s, start, py);
    RunEndOfField(s, py + 1, abi);
    PlatformEndLongest(s, abi + 1, plat);
  }

  /** The first way the rest of the pattern matches with the optional build group
      taken, the version ending at `ver`. */
  function WithBuild(s: string, d: nat, ver: nat): (r: Option<Cuts>)
    requires ver < |s|
    ensures r.Some? ==> r.value.dist == d && r.value.ver == ver && r.value.build.Some?
    ensures r.Some? ==> DashField(s, ver + 1, r.value.build.value)
                        && TagFields(s, r.value.TagStart(), r.value.py, r.value.abi, r.value.plat)
  {
    var b := RunEnd(s, ver + 1);
    if ver + 1 < b < |s| then
      match TagsFrom(s, b + 1)
      case None => None
      case Some(t) => Some(Cuts(d, ver, Some(b), t.0, t.1, t.2))
    else None
  }

  /** The first way the rest of the pattern matches with the build group skipped. */
  function WithoutBuild(s: string, d: nat, ver: nat): (r: Option<Cuts>)
    requires ver < |s|
    ensures r.Some? ==> r.value.dist == d && r.value.ver == ver && r.value.build.None?
    ensures r.Some? ==> TagFields(s, ver + 1, r.value.py, r.value.abi, r.value.plat)
  {
    match TagsFrom(s, ver + 1)
    case None => None
    case Some(t) => Some(Cuts(d, ver, None, t.0, t.1, t.2))
  }

  /** The first way the pattern matches after a distribution ending at `d`: the
      version is the whole dash-free run, and taking the build group is tried first. */
  function MatchAt(s: string, d: nat): (r: Option<Cuts>)
    ensures r.Some? ==> r.value.dist == d
  {
    if d + 1 > |s| then None
    else
      var ver := RunEnd(s, d + 1);
      if !(d + 1 < ver < |s|) then None
      else if WithBuild(s, d, ver).Some? then WithBuild(s, d, ver)
      else WithoutBuild(s, d, ver)
  }

  /** Tries distribution ends `d`, `d - 1`, ..., `1`: `.+` backtracking from its longest extent. */
  function Scan(s: string, d: nat): (r: Option<Cuts>)
    requires d <= |s|
    ensures r.Some? ==> 1 <= r.value.dist <= d
    decreases d
  {
    if d == 0 then None
    else if d < |s| && s[d] == '-' && MatchAt(s, d).Some? then MatchAt(s, d)
    else Scan(s, d - 1)
  }

  /** The match `re.match(WHEEL_NAMING_CONVENTION, s)` reports, if any. */
  function FirstMatch(s: string): Option<Cuts>
  {
    Scan(s, NewlineFreeLength(s, 0))
  }

  /** What `MatchAt` finds is a match of the pattern's tail. */
  lemma MatchAtSound(s: string, d: nat)
    ensures MatchAt(s, d).Some? ==> TailMatch(s, MatchAt(s, d).value)
  {
  }

  /** When a build field ends at `b` and the tag groups can follow it, `WithBuild`
      takes that build field and the same python and abi tags, with a platform tag
      at least as long. */
  lemma WithBuildFinds(s: string, d: nat, ver: nat, b: nat, py: nat, abi: nat, plat: nat)
    requires ver < |s| && DashField(s, ver + 1, b) && TagFields(s, b + 1, py, abi, plat)
    ensures var r := WithBuild(s, d, ver);
      r.Some? && r.value.build == Some(b) && r.value.py == py && r.value.abi == abi && plat <= r.value.plat
  {
    RunEndOfField(s, ver + 1, b);
    TagsFromGreedy(s, b + 1, py, abi, plat);
  }

  /** When the tag groups can follow the version, `WithoutBuild` takes the same python
      and abi tags, with a platform tag at least as long. */
  lemma WithoutBuildFinds(s: string, d: nat, ver: nat, py: nat, abi: nat, plat: nat)
    requires ver < |s| && TagFields(s, ver + 1, py, abi, plat)
    ensures var r := WithoutBuild(s, d, ver);
      r.Some? && r.value.py == py && r.value.abi == abi && plat <= r.value.plat
  {
    TagsFromGreedy(s, ver + 1, py, abi, plat);
  }

  /** With the version ending at `ver`, `MatchAt` tries the build group first. */
  lemma MatchAtVersion(s: string, d: nat, ver: nat)
    requires DashField(s, d + 1, ver)
    ensures MatchAt(s, d) == if WithBuild(s, d, ver).Some? then WithBuild(s, d, ver) else WithoutBuild(s, d, ver)
  {
    RunEndOfField(s, d + 1, ver);
  }

  /** A way the tail can match after `d` is found by `MatchAt`, or one it prefers. */
  lemma MatchAtFirst(s: string, m: Cuts)
    requires TailMatch(s, m)
    ensures MatchAt(s, m.dist).Some? && !Precedes(m, MatchAt(s, m.dist).value)
  {
    MatchAtVersion(s, m.dist, m.ver);
    var r := MatchAt(s, m.dist);
    if m.build.Some? {
      WithBuildFinds(s, m.dist, m.ver, m.build.value, m.py, m.abi, m.plat);
      assert r.value.build == m.build && r.value.py == m.py && r.value.abi == m.abi;
    } else if WithBuild(s, m.dist, m.ver).None? {
      WithoutBuildFinds(s, m.dist, m.ver, m.py, m.abi, m.plat);
      assert r.value.build == m.build && r.value.py == m.py && r.value.abi == m.abi;
    }
  }

  /** What the scan from `d` down reports is a match. */
  lemma {:induction false} ScanSound(s: string, d: nat)
    requires d <= |s| && NewlineFree(s, d)
    ensures Scan(s, d).Some? ==> IsMatch(s, Scan(s, d).value)
    decreases d
  {
    if d > 0 {
      ScanSound(s, d - 1);
      MatchAtSound(s, d);
    }
  }

  /** No match with a distribution ending at or before `d` precedes what the scan
      from `d` down reports, and the scan reports something when such a match exists. */
  lemma {:induction false} ScanFirst(s: string, d: nat)
    requires d <= |s|
    ensures forall m :: IsMatch(s, m) && m.dist <= d ==> Scan(s, d).Some? && !Precedes(m, Scan(s, d).value)
    decreases d
  {
    if d > 0 {
      ScanFirst(s, d - 1);
      forall m | IsMatch(s, m) && m.dist == d
        ensures Scan(s, d).Some? && !Precedes(m, Scan(s, d).value)
      {
        MatchAtFirst(s, m);
      }
    }
  }

  /** `FirstMatch` reports no match exactly when there is none, and otherwise the
      first match in backtracking order. */
  lemma FirstMatchIsFirst(s: string)
    ensures FirstMatch(s).None? <==> forall m :: !IsMatch(s, m)
    ensures FirstMatch(s).Some? ==> IsFirstMatch(s, FirstMatch(s).value)
  {
    var longest := NewlineFreeLength(s, 0);
    assert forall m :: IsMatch(s, m) ==> m.dist <= longest;
    ScanSound(s, longest);
    ScanFirst(s, longest);
  }

  /** The group dictionary of a match, the three tag fields split on '.'.
      The source splits a tag field only when it is non-empty, which it always is. */
  function Groups(s: string, m: Cuts): WheelName
    requires IsMatch(s, m)
  {
    WheelName(
      s[..m.dist],
      s[m.dist + 1..m.ver],
      if m.build.Some? then Some(s[m.ver + 1..m.build.value]) else None,
      Split(s[m.TagStart()..m.py], '.'),
      Split(s[m.py + 1..m.abi], '.'),
      Split(s[m.abi + 1..m.plat], '.'))
  }

  /** `parse_wheel_name`: `None` exactly when the pattern matches no prefix of the
      name, otherwise the groups of the match the engine reports. It never fails. */
  function ParseWheelName(s: string): (r: Option<WheelName>)
    ensures r.None? <==> forall m :: !IsMatch(s, m)
    ensures r.Some? ==> exists m :: IsFirstMatch(s, m) && r.value == Groups(s, m)
  {
    FirstMatchIsFirst(s);
    match FirstMatch(s)
    case None => None
    case Some(m) => Some(Groups(s, m))
  }

  // ---------------------------------------------------------------------------
  // What a parse result looks like, and the round trip

  /** A tag field split on '.': at least one alternative, none holding '-' or '.',
      and the field they join back into is non-empty. */
  predicate TagList(tags: seq<string>)
  {
    |tags| >= 1 && Join(tags, ".") != "" && forall i :: 0 <= i < |tags| ==> '-' !in tags[i] && '.' !in tags[i]
  }

  /** The shape of every parse result. A build tag comes with a version holding a
      newline: only then can the distribution not be extended over the version. */
  predicate WellFormed(w: WheelName)
  {
    && |w.distribution| >= 1 && '\n' !in w.distribution
    && |w.version| >= 1 && '-' !in w.version
    && (w.buildTag.Some? ==> |w.buildTag.value| >= 1 && '-' !in w.buildTag.value && '\n' in w.version)
    && TagList(w.pythonTag) && TagList(w.abiTag) && TagList(w.platformTag)
  }

  /** `distribution-version[-build]-python-abi-platform.whl`, each tag list joined with '.'. */
  function Render(w: WheelName): string
  {
    NamePart(w) + TagPart(Join(w.pythonTag, "."), Join(w.abiTag, "."), Join(w.platformTag, "."))
  }

  /** `distribution-version[-build]`. */
  function NamePart(w: WheelName): string
  {
    w.distribution + "-" + w.version + (if w.buildTag.Some? then "-" + w.buildTag.value else "")
  }

  /** `-python-abi-platform.whl`. */
  function TagPart(py: string, abi: string, platform: string): string
  {
    "-" + py + "-" + abi + "-" + platform + ".whl"
  }

  /** Where the groups of `Render(w)` end. */
  function RenderCuts(w: WheelName): Cuts
  {
    var d := |w.distribution|;
    var v := d + 1 + |w.version|;
    var b := if w.buildTag.Some? then Some(v + 1 + |w.buildTag.value|) else None;
    var start := if b.Some? then b.value + 1 else v + 1;
    var py := start + |Join(w.pythonTag, ".")|;
    var abi := py + 1 + |Join(w.abiTag, ".")|;
    Cuts(d, v, b, py, abi, abi + 1 + |Join(w.platformTag, ".")|)
  }

  lemma TagListDashFree(tags: seq<string>)
    requires TagList(tags)
    ensures '-' !in Join(tags, ".")
  {
    if '-' in Join(tags, ".") {
      JoinChars(tags, ".", '-');
    }
  }

  /** A non-empty dash-free field splits into a tag list. */
  lemma SplitTagField(s: string, i: nat, j: nat)
    requires i < j <= |s| && DashFree(s, i, j)
    ensures TagList(Split(s[i..j], '.'))
  {
    assert '-' !in s[i..j];
    JoinSplit(s[i..j], '.');
  }

  /** The reported match takes a build tag only when the version holds a newline:
      otherwise the distribution could end at the version's end, which comes first. */
  lemma BuildTagNeedsNewline(s: string, m: Cuts)
    requires IsFirstMatch(s, m) && m.build.Some?
    ensures '\n' in s[m.dist + 1..m.ver]
  {
    if '\n' !in s[m.dist + 1..m.ver] {
      var m' := Cuts(m.ver, m.build.value, None, m.py, m.abi, m.plat);
      forall k | 0 <= k < m.ver ensures s[k] != '\n' {
        if m.dist < k {
          assert s[k] == s[m.dist + 1..m.ver][k - m.dist - 1];
        }
      }
      assert IsMatch(s, m') && Precedes(m', m);
    }
  }

  /** The groups of a match whose build tag, if any, follows a version holding a
      newline have the shape `WellFormed` describes. */
  lemma GroupsWellFormed(s: string, m: Cuts)
    requires IsMatch(s, m)
    requires m.build.Some? ==> '\n' in s[m.dist + 1..m.ver]
    ensures WellFormed(Groups(s, m))
  {
    var w := Groups(s, m);
    assert '\n' !in w.distribution;
    SplitTagField(s, m.TagStart(), m.py);
    SplitTagField(s, m.py + 1, m.abi);
    SplitTagField(s, m.abi + 1, m.plat);
  }

  /** Every parse result has the shape `WellFormed` describes. */
  lemma ParseIsWellFormed(s: string)
    ensures ParseWheelName(s).Some? ==> WellFormed(ParseWheelName(s).value)
  {
    FirstMatchIsFirst(s);
    if FirstMatch(s).Some? {
      var m := FirstMatch(s).value;
      if m.build.Some? {
        BuildTagNeedsNewline(s, m);
      }
      GroupsWellFormed(s, m);
    }
  }

  lemma LeftSlice(x: string, y: string, i: nat, j: nat)
    requires i <= j <= |x|
    ensures (x + y)[i..j] == x[i..j]
  {
    assert (x + y)[i..j] == (x + y)[..|x|][i..j];
  }

  lemma RightSlice(x: string, y: string, i: nat, j: nat)
    requires |x| <= i <= j <= |x| + |y|
    ensures (x + y)[i..j] == y[i - |x|..j - |x|]
  {
    assert (x + y)[i..j] == (x + y)[|x|..][i - |x|..j - |x|];
  }

  lemma TagPartLayout(py: string, abi: string, platform: string)
    ensures var t, a, p := TagPart(py, abi, platform), |py| + 1, |py| + |abi| + 2;
      && |t| == p + |platform| + 5
      && t[0] == '-' && t[1..a] == py && t[a] == '-' && t[a + 1..p] == abi && t[p] == '-'
      && t[p + 1..p + 1 + |platform|] == platform && t[p + 1 + |platform|..] == ".whl"
  {
    var t := TagPart(py, abi, platform);
    var t1 := "-" + py;
    var t2 := t1 + "-";
    var t3 := t2 + abi;
    var t4 := t3 + "-";
    var t5 := t4 + platform;
    assert t == t5 + ".whl";
    var a, p := |py| + 1, |py| + |abi| + 2;
    RightSlice(t5, ".whl", |t5|, |t|);
    LeftSlice(t5, ".whl", p + 1, |t5|);
    RightSlice(t4, platform, p + 1, |t5|);
    LeftSlice(t5, ".whl", a + 1, p);
    LeftSlice(t4, platform, a + 1, p);
    LeftSlice(t3, "-", a + 1, p);
    RightSlice(t2, abi, a + 1, p);
    LeftSlice(t5, ".whl", 1, a);
    LeftSlice(t4, platform, 1, a);
    LeftSlice(t3, "-", 1, a);
    LeftSlice(t2, abi, 1, a);
    LeftSlice(t1, "-", 1, a);
    RightSlice("-", py, 1, a);
  }

  lemma NamePartLayout(w: WheelName)
    ensures var n, d, v := NamePart(w), |w.distribution|, |w.distribution| + 1 + |w.version|;
      && n[..d] == w.distribution && n[d] == '-' && n[d + 1..v] == w.version
      && (w.buildTag.None? ==> |n| == v)
      && (w.buildTag.Some? ==> |n| == v + 1 + |w.buildTag.value| && n[v] == '-' && n[v + 1..] == w.buildTag.value)
  {
    var n1 := w.distribution + "-";
    var n2 := n1 + w.version;
    var n, d, v := NamePart(w), |w.distribution|, |w.distribution| + 1 + |w.version|;
    var bp := if w.buildTag.Some? then "-" + w.buildTag.value else "";
    assert n == n2 + bp;
    LeftSlice(n2, bp, 0, d);
    LeftSlice(n1, w.version, 0, d);
    LeftSlice(w.distribution, "-", 0, d);
    LeftSlice(n2, bp, d + 1, v);
    RightSlice(n1, w.version, d + 1, v);
    if w.buildTag.Some? {
      RightSlice(n2, bp, v + 1, |n|);
      RightSlice("-", w.buildTag.value, 1, |bp|);
    }
  }

  /** Where the distribution, version and build tag of `Render(w)` lie. */
  lemma RenderNameLayout(w: WheelName)
    ensures var s, m := Render(w), RenderCuts(w);
      && m.ver < |s|
      && s[..m.dist] == w.distribution && s[m.dist] == '-'
      && s[m.dist + 1..m.ver] == w.version && s[m.ver] == '-'
      && (m.build.Some? <==> w.buildTag.Some?)
      && (m.build.Some? ==> m.build.value < |s| && s[m.ver + 1..m.build.value] == w.buildTag.value && s[m.build.value] == '-')
  {
    var n := NamePart(w);
    var t := TagPart(Join(w.pythonTag, "."), Join(w.abiTag, "."), Join(w.platformTag, "."));
    var m := RenderCuts(w);
    assert Render(w) == n + t;
    NamePartLayout(w);
    assert |t| > 0 && t[0] == '-';
    LeftSlice(n, t, 0, m.dist);
    LeftSlice(n, t, m.dist + 1, m.ver);
    if m.build.Some? {
      LeftSlice(n, t, m.ver + 1, |n|);
    }
  }

  /** Where the three tag fields and ".whl" of `Render(w)` lie. */
  lemma RenderTagLayout(w: WheelName)
    ensures var s, m := Render(w), RenderCuts(w);
      && |s| == m.plat + 4
      && s[m.TagStart() - 1] == '-'
      && s[m.TagStart()..m.py] == Join(w.pythonTag, ".") && s[m.py] == '-'
      && s[m.py + 1..m.abi] == Join(w.abiTag, ".") && s[m.abi] == '-'
      && s[m.abi + 1..m.plat] == Join(w.platformTag, ".") && s[m.plat..] == ".whl"
  {
    var n := NamePart(w);
    var P, A, L := Join(w.pythonTag, "."), Join(w.abiTag, "."), Join(w.platformTag, ".");
    var t := TagPart(P, A, L);
    var m := RenderCuts(w);
    var s := Render(w);
    assert s == n + t;
    NamePartLayout(w);
    TagPartLayout(P, A, L);
    var o := |n|;
    assert o + 1 == m.TagStart() && o + 1 + |P| == m.py && m.py + 1 + |A| == m.abi && m.abi + 1 + |L| == m.plat;
    RightSlice(n, t, m.TagStart(), m.py);
    RightSlice(n, t, m.py + 1, m.abi);
    RightSlice(n, t, m.abi + 1, m.plat);
    RightSlice(n, t, m.plat, |s|);
  }

  /** The fields of `w` lie in `s` where `m` says, each tag list joined with '.'. */
  predicate Laid(s: string, m: Cuts, w: WheelName)
  {
    && m.dist < m.ver < m.TagStart() <= m.py < m.abi < m.plat && m.plat + 4 == |s|
    && (m.build.Some? <==> w.buildTag.Some?)
    && (m.build.Some? ==> m.ver < m.build.value)
    && s[..m.dist] == w.distribution && s[m.dist] == '-'
    && s[m.dist + 1..m.ver] == w.version && s[m.ver] == '-'
    && (m.build.Some? ==> s[m.ver + 1..m.build.value] == w.buildTag.value && s[m.build.value] == '-')
    && s[m.TagStart()..m.py] == Join(w.pythonTag, ".") && s[m.py] == '-'
    && s[m.py + 1..m.abi] == Join(w.abiTag, ".") && s[m.abi] == '-'
    && s[m.abi + 1..m.plat] == Join(w.platformTag, ".") && s[m.plat..] == ".whl"
  }

  /** `Render(w)` holds the fields of `w` where `RenderCuts(w)` says. */
  lemma RenderLayout(w: WheelName)
    requires WellFormed(w)
    ensures Laid(Render(w), RenderCuts(w), w)
  {
    RenderNameLayout(w);
    RenderTagLayout(w);
    RenderedMatch(w);
  }

  lemma SliceFree(s: string, i: nat, j: nat, x: string, c: char)
    requires i <= j <= |s| && s[i..j] == x && c !in x
    ensures forall k :: i <= k < j ==> s[k] != c
  {
    forall k | i <= k < j ensures s[k] != c {
      assert s[k] == x[k - i];
    }
  }

  lemma WhlAtEnd(s: string, p: nat)
    requires p <= |s| && s[p..] == ".whl"
    ensures WhlAt(s, p)
  {
    assert s[p] == s[p..][0] && s[p + 1] == s[p..][1] && s[p + 2] == s[p..][2] && s[p + 3] == s[p..][3];
  }

  /** Fields that are free of what their groups exclude, separated by dashes and
      followed by ".whl" at the very end, make a match. */
  lemma MatchOfSlices(s: string, m: Cuts)
    requires 1 <= m.dist && m.dist + 1 < m.ver < m.TagStart() < m.py < m.abi < m.plat && m.plat + 4 == |s|
    requires '\n' !in s[..m.dist] && s[m.dist] == '-'
    requires '-' !in s[m.dist + 1..m.ver] && s[m.ver] == '-'
    requires m.build.Some? ==> m.ver + 1 < m.build.value < |s| && '-' !in s[m.ver + 1..m.build.value] && s[m.build.value] == '-'
    requires '-' !in s[m.TagStart()..m.py] && s[m.py] == '-'
    requires m.py + 1 < m.abi && '-' !in s[m.py + 1..m.abi] && s[m.abi] == '-'
    requires m.abi + 1 < m.plat && '-' !in s[m.abi + 1..m.plat] && s[m.plat..] == ".whl"
    ensures IsMatch(s, m) && DashFree(s, m.abi + 1, |s|)
  {
    SliceFree(s, 0, m.dist, s[..m.dist], '\n');
    SliceFree(s, m.dist + 1, m.ver, s[m.dist + 1..m.ver], '-');
    if m.build.Some? {
      SliceFree(s, m.ver + 1, m.build.value, s[m.ver + 1..m.build.value], '-');
    }
    SliceFree(s, m.TagStart(), m.py, s[m.TagStart()..m.py], '-');
    SliceFree(s, m.py + 1, m.abi, s[m.py + 1..m.abi], '-');
    SliceFree(s, m.abi + 1, m.plat, s[m.abi + 1..m.plat], '-');
    SliceFree(s, m.plat, |s|, ".whl", '-');
    WhlAtEnd(s, m.plat);
  }

  /** The fields of `Render(w)` lie where `RenderCuts(w)` says, and they match. */
  lemma RenderedMatch(w: WheelName)
    requires WellFormed(w)
    ensures IsMatch(Render(w), RenderCuts(w))
    ensures DashFree(Render(w), RenderCuts(w).abi + 1, |Render(w)|)
  {
    var s, m := Render(w), RenderCuts(w);
    RenderNameLayout(w);
    RenderTagLayout(w);
    TagListDashFree(w.pythonTag);
    TagListDashFree(w.abiTag);
    TagListDashFree(w.platformTag);
    MatchOfSlices(s, m);
  }

  /** No match of `Render(w)` precedes the one that recovers the fields of `w`. */
  lemma RenderedMatchIsFirst(w: WheelName, m: Cuts)
    requires WellFormed(w) && IsMatch(Render(w), m)
    ensures !Precedes(m, RenderCuts(w))
  {
    var s, m0 := Render(w), RenderCuts(w);
    RenderedMatch(w);
    if m.dist > m0.dist {
      assert m.dist >= m0.ver;
      if w.buildTag.Some? {
        RenderNameLayout(w);
      }
    } else if m.dist == m0.dist {
      assert m.ver == m0.ver;
    }
  }

  /** The engine reports, for `Render(w)`, the match that recovers the fields of `w`. */
  lemma FirstMatchOfRender(w: WheelName)
    requires WellFormed(w)
    ensures FirstMatch(Render(w)) == Some(RenderCuts(w))
  {
    var s, m0 := Render(w), RenderCuts(w);
    RenderedMatch(w);
    FirstMatchIsFirst(s);
    var m := FirstMatch(s).value;
    RenderedMatchIsFirst(w, m);
    if m != m0 {
      PrecedesTotal(m, m0);
    }
  }

  lemma SplitTagList(field: string, tags: seq<string>)
    requires TagList(tags) && field == Join(tags, ".")
    ensures Split(field, '.') == tags
  {
    SplitJoin(tags, '.');
  }

  /** A match whose fields hold the fields of a well-formed `w`, the tag lists joined
      with '.', has `w` for its groups. */
  lemma GroupsOfSlices(s: string, m: Cuts, w: WheelName)
    requires WellFormed(w) && IsMatch(s, m) && Laid(s, m, w)
    ensures Groups(s, m) == w
  {
    SplitTagList(s[m.TagStart()..m.py], w.pythonTag);
    SplitTagList(s[m.py + 1..m.abi], w.abiTag);
    SplitTagList(s[m.abi + 1..m.plat], w.platformTag);
  }

  /** The groups of that match are the fields of `w`. */
  lemma GroupsOfRender(w: WheelName)
    requires WellFormed(w)
    ensures IsMatch(Render(w), RenderCuts(w)) && Groups(Render(w), RenderCuts(w)) == w
  {
    RenderedMatch(w);
    RenderLayout(w);
    GroupsOfSlices(Render(w), RenderCuts(w), w);
  }

  /** Parsing the rendering of a well-formed name gives the name back. */
  lemma RenderParses(w: WheelName)
    requires WellFormed(w)
    ensures ParseWheelName(Render(w)) == Some(w)
  {
    FirstMatchOfRender(w);
    GroupsOfRender(w);
  }

  /** Round trip: re-joining the fields of a parse result re-parses to the same result. */
  lemma ParseRoundTrip(s: string)
    ensures ParseWheelName(s).Some? ==> ParseWheelName(Render(ParseWheelName(s).value)) == ParseWheelName(s)
  {
    ParseIsWellFormed(s);
    if ParseWheelName(s).Some? {
      RenderParses(ParseWheelName(s).value);
    }
  }

  // ---------------------------------------------------------------------------
  // Consequences for particular names

  /** Without a newline in the name the build tag is never captured: the distribution
      always extends over what would have been the version. */
  lemma NoBuildTagWithoutNewline(s: string)
    requires '\n' !in s
    ensures ParseWheelName(s).Some? ==> ParseWheelName(s).value.buildTag.None?
  {
    FirstMatchIsFirst(s);
    if FirstMatch(s).Some? && FirstMatch(s).value.build.Some? {
      var m := FirstMatch(s).value;
      BuildTagNeedsNewline(s, m);
    }
  }

  /** A name holding no ".whl" does not parse. */
  lemma NoWhlNoMatch(s: string)
    requires forall p: nat :: !WhlAt(s, p)
    ensures ParseWheelName(s).None?
  {
  }

  /** A match reads the name only up to the end of its ".whl". */
  lemma MatchOfPrefix(s: string, t: string, m: Cuts)
    requires m.plat + 4 <= |s|
    ensures IsMatch(s + t, m) <==> IsMatch(s, m)
  {
    assert forall k :: 0 <= k < |s| ==> (s + t)[k] == s[k];
  }

  /** `re.match` anchors at the start only: text after a name that parses never stops
      it from parsing. */
  lemma TrailingTextKeepsMatch(s: string, t: string)
    ensures ParseWheelName(s).Some? ==> ParseWheelName(s + t).Some?
  {
    FirstMatchIsFirst(s);
    if FirstMatch(s).Some? {
      MatchOfPrefix(s, t, FirstMatch(s).value);
    }
  }

  /** A match of `s` reports the same groups in `s + t`. */
  lemma GroupsOfPrefix(s: string, t: string, m: Cuts)
    requires IsMatch(s, m)
    ensures IsMatch(s + t, m) && Groups(s + t, m) == Groups(s, m)
  {
    MatchOfPrefix(s, t, m);
    var u := s + t;
    assert u[..m.dist] == s[..m.dist];
    assert u[m.dist + 1..m.ver] == s[m.dist + 1..m.ver];
    if m.build.Some? {
      assert u[m.ver + 1..m.build.value] == s[m.ver + 1..m.build.value];
    }
    assert u[m.TagStart()..m.py] == s[m.TagStart()..m.py];
    assert u[m.py + 1..m.abi] == s[m.py + 1..m.abi];
    assert u[m.abi + 1..m.plat] == s[m.abi + 1..m.plat];
  }

  /** Without a further ".whl" beginning in the tail, `s` and `s + t` match alike. */
  lemma SameMatches(s: string, t: string)
    requires forall p: nat :: |s| < p + 4 <= |s + t| ==> !WhlAt(s + t, p)
    ensures forall m :: IsMatch(s + t, m) <==> IsMatch(s, m)
  {
    forall m | IsMatch(s + t, m) || IsMatch(s, m) ensures IsMatch(s + t, m) <==> IsMatch(s, m) {
      if IsMatch(s + t, m) {
        assert WhlAt(s + t, m.plat);
      }
      MatchOfPrefix(s, t, m);
    }
  }

  /** Two names with the same matches have the same first match. */
  lemma FirstOfSameMatches(s: string, u: string, m: Cuts, m': Cuts)
    requires forall m :: IsMatch(u, m) <==> IsMatch(s, m)
    requires IsFirstMatch(s, m) && IsFirstMatch(u, m')
    ensures m == m'
  {
    if m != m' {
      PrecedesTotal(m, m');
    }
  }

  /** Text after a name in which no further ".whl" begins leaves the parse as it is,
      whether or not the name parses. */
  lemma TrailingTextKeepsParse(s: string, t: string)
    requires forall p: nat :: |s| < p + 4 <= |s + t| ==> !WhlAt(s + t, p)
    ensures ParseWheelName(s + t) == ParseWheelName(s)
  {
    SameMatches(s, t);
    FirstMatchIsFirst(s);
    FirstMatchIsFirst(s + t);
    if FirstMatch(s).Some? {
      var m := FirstMatch(s).value;
      FirstOfSameMatches(s, s + t, m, FirstMatch(s + t).value);
      GroupsOfPrefix(s, t, m);
    }
  }

  /** A match needs four dashes after the first character. */
  lemma MatchHasFourDashes(s: string, m: Cuts)
    requires IsMatch(s, m)
    ensures multiset(s[1..])['-'] >= 4
  {
    var a, b, c, d := m.dist, m.ver, m.py, m.abi;
    assert s[1..] == s[1..a] + s[a..b] + s[b..c] + s[c..d] + s[d..];
    assert s[a..b][0] == '-' && s[b..c][0] == '-' && s[c..d][0] == '-' && s[d..][0] == '-';
    assert multiset(s[a..b])['-'] >= 1 && multiset(s[b..c])['-'] >= 1;
    assert multiset(s[c..d])['-'] >= 1 && multiset(s[d..])['-'] >= 1;
  }

  /** A name with fewer than four dashes after its first character does not parse. */
  lemma FewDashesNoMatch(s: string)
    requires |s| >= 1 && multiset(s[1..])['-'] < 4
    ensures ParseWheelName(s).None?
  {
    forall m: Cuts | IsMatch(s, m) ensures multiset(s[1..])['-'] >= 4 {
      MatchHasFourDashes(s, m);
    }
  }

  /** `pkg-1.0-1-py3-none-any.whl` parses with distribution "pkg-1.0", version "1" and
      no build tag: the greedy distribution takes the first two fields. */
  lemma ExampleGreedyDistribution()
    ensures ParseWheelName("pkg-1.0-1-py3-none-any.whl")
      == Some(WheelName("pkg-1.0", "1", None, ["py3"], ["none"], ["any"]))
  {
    var w := WheelName("pkg-1.0", "1", None, ["py3"], ["none"], ["any"]);
    assert Render(w) == "pkg-1.0-1-py3-none-any.whl";
    RenderParses(w);
  }

  /** Compressed tag sets are split on '.'. */
  lemma ExampleCompressedTags()
    ensures ParseWheelName("pkg-2.0-py2.py3-none-any.whl")
      == Some(WheelName("pkg", "2.0", None, ["py2", "py3"], ["none"], ["any"]))
  {
    var w := WheelName("pkg", "2.0", None, ["py2", "py3"], ["none"], ["any"]);
    assert Render(w) == "pkg-2.0-py2.py3-none-any.whl";
    RenderParses(w);
  }

  /** A newline in the version stops the distribution before it, so the build tag is
      captured. */
  lemma ExampleBuildTagAfterNewline()
    ensures ParseWheelName("pkg-1\n0-7-py3-none-any.whl")
      == Some(WheelName("pkg", "1\n0", Some("7"), ["py3"], ["none"], ["any"]))
  {
    var w := WheelName("pkg", "1\n0", Some("7"), ["py3"], ["none"], ["any"]);
    assert Render(w) == "pkg-1\n0-7-py3-none-any.whl";
    RenderParses(w);
  }

  /** The plainest wheel name: no build tag, one alternative per tag field. */
  lemma ExamplePlain()
    ensures ParseWheelName("pkg-1.0-py3-none-any.whl")
      == Some(WheelName("pkg", "1.0", None, ["py3"], ["none"], ["any"]))
  {
    var w := WheelName("pkg", "1.0", None, ["py3"], ["none"], ["any"]);
    assert Render(w) == "pkg-1.0-py3-none-any.whl";
    RenderParses(w);
  }

  /** A detached signature's name, `pkg-1.0-py3-none-any.whl.asc`, parses as the wheel
      it belongs to: the match stops at ".whl". */
  lemma ExampleTrailingText()
    ensures ParseWheelName("pkg-1.0-py3-none-any.whl.asc")
      == Some(WheelName("pkg", "1.0", None, ["py3"], ["none"], ["any"]))
  {
    var s, t := "pkg-1.0-py3-none-any.whl", ".asc";
    assert s + t == "pkg-1.0-py3-none-any.whl.asc";
    forall p: nat | |s| < p + 4 <= |s + t| ensures !WhlAt(s + t, p) {
      assert 21 <= p <= 24;
    }
    ExamplePlain();
    TrailingTextKeepsParse(s, t);
  }
}
