/** The pip argument lists of `install`, `download` and `freeze`. */
module PipCommands {
  import opened Wrappers
  import opened Strings

  /** The names whose switch is on, in the order the names are given. */
  function Selected(names: seq<string>, on: seq<bool>): (r: seq<string>)
    requires |names| == |on|
    ensures |r| <= |names|
    ensures forall x :: x in r ==> x in names
  {
    if |names| == 0 then []
    else (if on[0] then [names[0]] else []) + Selected(names[1..], on[1..])
  }

  /** A name is selected exactly when its switch is on. */
  lemma {:induction false} SelectedMembers(names: seq<string>, on: seq<bool>, i: nat)
    requires |names| == |on| && Distinct(names) && i < |names|
    ensures names[i] in Selected(names, on) <==> on[i]
    decreases |names|
  {
    if i > 0 {
      SelectedMembers(names[1..], on[1..], i - 1);
      assert names[1..][i - 1] == names[i];
    }
  }

  /** Selected names keep their relative order. */
  lemma {:induction false} SelectedOrder(names: seq<string>, on: seq<bool>, i: nat, j: nat)
    requires |names| == |on| && i < j < |names| && on[i] && on[j]
    ensures exists a, b :: 0 <= a < b < |Selected(names, on)|
              && Selected(names, on)[a] == names[i] && Selected(names, on)[b] == names[j]
    decreases |names|
  {
    var r := Selected(names, on);
    var head := if on[0] then [names[0]] else [];
    var rest := Selected(names[1..], on[1..]);
    assert r == head + rest;
    if i > 0 {
      SelectedOrder(names[1..], on[1..], i - 1, j - 1);
      var a, b :| 0 <= a < b < |rest| && rest[a] == names[1..][i - 1] && rest[b] == names[1..][j - 1];
      assert r[|head| + a] == names[i] && r[|head| + b] == names[j];
    } else {
      SelectedSome(names[1..], on[1..], j - 1);
      var b :| 0 <= b < |rest| && rest[b] == names[1..][j - 1];
      assert r[0] == names[i] && r[1 + b] == names[j];
    }
  }

  /** A name whose switch is on is selected. */
  lemma {:induction false} SelectedSome(names: seq<string>, on: seq<bool>, j: nat)
    requires |names| == |on| && j < |names| && on[j]
    ensures exists b :: 0 <= b < |Selected(names, on)| && Selected(names, on)[b] == names[j]
    decreases |names|
  {
    var head := if on[0] then [names[0]] else [];
    var rest := Selected(names[1..], on[1..]);
    if j == 0 {
      assert Selected(names, on)[0] == names[0];
    } else {
      SelectedSome(names[1..], on[1..], j - 1);
      var b :| 0 <= b < |rest| && rest[b] == names[1..][j - 1];
      assert Selected(names, on)[|head| + b] == names[j];
    }
  }

  /** Three switches, unrolled. */
  lemma SelectedThree(a: string, b: string, c: string, x: bool, y: bool, z: bool)
    ensures Selected([a, b, c], [x, y, z])
            == (if x then [a] else []) + (if y then [b] else []) + (if z then [c] else [])
  {
    assert [a, b, c][1..] == [b, c] && [x, y, z][1..] == [y, z];
    assert [b, c][1..] == [c] && [y, z][1..] == [z];
    assert Selected([c], [z]) == (if z then [c] else []) + Selected([], []);
  }

  /** The switches of `install`, in the order the source appends them. */
  const InstallSwitches: seq<string> := ["--upgrade", "--no-index", "--no-deps"]

  /** `install`'s command (lines 234-241): "install", the switches that are on in their
      fixed order, then the packages in the order given. */
  method InstallArguments(packages: seq<string>, upgrade: bool, noIndex: bool, noDeps: bool) returns (command: seq<string>)
    ensures command == ["install"] + Selected(InstallSwitches, [upgrade, noIndex, noDeps]) + packages
  {
    command := ["install"];
    if upgrade {
      command := command + ["--upgrade"];
    }
    if noIndex {
      command := command + ["--no-index"];
    }
    if noDeps {
      command := command + ["--no-deps"];
    }
    command := command + packages;
    SelectedThree("--upgrade", "--no-index", "--no-deps", upgrade, noIndex, noDeps);
  }

  /** `download`'s command (lines 203-206): "download --dest <dest>", "--no-deps" exactly
      when `noDeps`, then the packages in the order given. */
  method DownloadArguments(packages: seq<string>, dest: string, noDeps: bool) returns (command: seq<string>)
    ensures command == ["download", "--dest", dest] + Selected(["--no-deps"], [noDeps]) + packages
  {
    command := ["download", "--dest", dest];
    if noDeps {
      command := command + ["--no-deps"];
    }
    command := command + packages;
  }

  /** `freeze`'s command (lines 218-221): "freeze", or "list --format <format>". */
  function FreezeArguments(listFormat: Option<string>): (command: seq<string>)
    ensures listFormat.None? <==> command == ["freeze"]
    ensures listFormat.Some? ==> command == ["list", "--format", listFormat.value]
  {
    if listFormat.None? then ["freeze"] else ["list", "--format", listFormat.value]
  }

  /** `install`'s switches appear exactly when requested, and there are as many as requested. */
  lemma InstallSwitchesSelected(upgrade: bool, noIndex: bool, noDeps: bool)
    ensures var r := Selected(InstallSwitches, [upgrade, noIndex, noDeps]);
      && ("--upgrade" in r <==> upgrade) && ("--no-index" in r <==> noIndex) && ("--no-deps" in r <==> noDeps)
      && |r| == (if upgrade then 1 else 0) + (if noIndex then 1 else 0) + (if noDeps then 1 else 0)
  {
    var on := [upgrade, noIndex, noDeps];
    SelectedThree("--upgrade", "--no-index", "--no-deps", upgrade, noIndex, noDeps);
    SelectedMembers(InstallSwitches, on, 0);
    SelectedMembers(InstallSwitches, on, 1);
    SelectedMembers(InstallSwitches, on, 2);
  }
}
