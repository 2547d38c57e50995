/** The candidate tags of `VirtualEnvironmentManager.compatible_wheel`: every
    `python-abi-platform` triple built from one alternative of each compressed tag set. */
module Compatibility {
  import opened Strings

  /** `'-'.join((python_tag, abi_tag, platform_tag))`. */
  function Combine(p: string, a: string, l: string): string
  {
    Join([p, a, l], "-")
  }

  /** The tags with python alternative `p` and abi alternative `a`. */
  function Tags1(p: string, a: string, ls: seq<string>): set<string>
  {
    if |ls| == 0 then {} else Tags1(p, a, ls[..|ls| - 1]) + {Combine(p, a, ls[|ls| - 1])}
  }

  /** The tags with python alternative `p`. */
  function Tags2(p: string, abis: seq<string>, ls: seq<string>): set<string>
  {
    if |abis| == 0 then {} else Tags2(p, abis[..|abis| - 1], ls) + Tags1(p, abis[|abis| - 1], ls)
  }

  /** All candidate tags, in the order the nested loops of the source add them. */
  function Tags3(ps: seq<string>, abis: seq<string>, ls: seq<string>): set<string>
  {
    if |ps| == 0 then {} else Tags3(ps[..|ps| - 1], abis, ls) + Tags2(ps[|ps| - 1], abis, ls)
  }

  /** `t` is built from one alternative of each list. */
  predicate Candidate(t: string, ps: seq<string>, abis: seq<string>, ls: seq<string>)
  {
    exists i, j, k :: 0 <= i < |ps| && 0 <= j < |abis| && 0 <= k < |ls| && t == Combine(ps[i], abis[j], ls[k])
  }

  lemma {:induction false} Tags1Members(p: string, a: string, ls: seq<string>, t: string)
    ensures t in Tags1(p, a, ls) <==> exists k :: 0 <= k < |ls| && t == Combine(p, a, ls[k])
    decreases |ls|
  {
    if |ls| > 0 {
      var front := ls[..|ls| - 1];
      Tags1Members(p, a, front, t);
      if t in Tags1(p, a, front) {
        var k :| 0 <= k < |front| && t == Combine(p, a, front[k]);
        assert ls[k] == front[k];
      }
      if exists k :: 0 <= k < |ls| && t == Combine(p, a, ls[k]) {
        var k :| 0 <= k < |ls| && t == Combine(p, a, ls[k]);
        if k < |ls| - 1 {
          assert ls[k] == front[k];
        }
      }
    }
  }

  lemma {:induction false} Tags2Members(p: string, abis: seq<string>, ls: seq<string>, t: string)
    ensures t in Tags2(p, abis, ls) <==>
            exists j, k :: 0 <= j < |abis| && 0 <= k < |ls| && t == Combine(p, abis[j], ls[k])
    decreases |abis|
  {
    if |abis| > 0 {
      var front := abis[..|abis| - 1];
      Tags2Members(p, front, ls, t);
      Tags1Members(p, abis[|abis| - 1], ls, t);
      if t in Tags2(p, front, ls) {
        var j, k :| 0 <= j < |front| && 0 <= k < |ls| && t == Combine(p, front[j], ls[k]);
        assert abis[j] == front[j];
      }
      if exists j, k :: 0 <= j < |abis| && 0 <= k < |ls| && t == Combine(p, abis[j], ls[k]) {
        var j, k :| 0 <= j < |abis| && 0 <= k < |ls| && t == Combine(p, abis[j], ls[k]);
        if j < |abis| - 1 {
          assert abis[j] == front[j];
        }
      }
    }
  }

  /** The recursive definition agrees with "one alternative of each list". */
  lemma {:induction false} Tags3Members(ps: seq<string>, abis: seq<string>, ls: seq<string>, t: string)
    ensures t in Tags3(ps, abis, ls) <==> Candidate(t, ps, abis, ls)
    decreases |ps|
  {
    if |ps| > 0 {
      var front := ps[..|ps| - 1];
      Tags3Members(front, abis, ls, t);
      Tags2Members(ps[|ps| - 1], abis, ls, t);
      if t in Tags3(front, abis, ls) {
        var i, j, k :| 0 <= i < |front| && 0 <= j < |abis| && 0 <= k < |ls| && t == Combine(front[i], abis[j], ls[k]);
        assert ps[i] == front[i];
      }
      if Candidate(t, ps, abis, ls) {
        var i, j, k :| 0 <= i < |ps| && 0 <= j < |abis| && 0 <= k < |ls| && t == Combine(ps[i], abis[j], ls[k]);
        if i < |ps| - 1 {
          assert ps[i] == front[i];
          assert Candidate(t, front, abis, ls);
        }
      }
    }
  }

  /** The nested loops of `compatible_wheel` (lines 185-189): the set they accumulate. */
  method CrossProduct(ps: seq<string>, abis: seq<string>, ls: seq<string>) returns (possible: set<string>)
    ensures possible == Tags3(ps, abis, ls)
  {
    possible := {};
    for i := 0 to |ps|
      invariant possible == Tags3(ps[..i], abis, ls)
    {
      assert ps[..i + 1][..i] == ps[..i];
      for j := 0 to |abis|
        invariant possible == Tags3(ps[..i], abis, ls) + Tags2(ps[i], abis[..j], ls)
      {
        assert abis[..j + 1][..j] == abis[..j];
        for k := 0 to |ls|
          invariant possible == Tags3(ps[..i], abis, ls) + Tags2(ps[i], abis[..j], ls) + Tags1(ps[i], abis[j], ls[..k])
        {
          assert ls[..k + 1][..k] == ls[..k];
          possible := possible + {Combine(ps[i], abis[j], ls[k])};
        }
        assert ls[..|ls|] == ls;
      }
      assert abis[..|abis|] == abis;
    }
    assert ps[..|ps|] == ps;
  }

  /** `bool(possible_tags & compatible_tags)`: some candidate is among the supported tags. */
  predicate Compatible(ps: seq<string>, abis: seq<string>, ls: seq<string>, supported: set<string>)
  {
    exists i, j, k :: 0 <= i < |ps| && 0 <= j < |abis| && 0 <= k < |ls| && Combine(ps[i], abis[j], ls[k]) in supported
  }

  /** The intersection the source tests is non-empty exactly when some triple is supported. */
  lemma IntersectsIffCompatible(ps: seq<string>, abis: seq<string>, ls: seq<string>, supported: set<string>)
    ensures Tags3(ps, abis, ls) * supported != {} <==> Compatible(ps, abis, ls, supported)
  {
    if Tags3(ps, abis, ls) * supported != {} {
      var t :| t in Tags3(ps, abis, ls) * supported;
      Tags3Members(ps, abis, ls, t);
    }
    if Compatible(ps, abis, ls, supported) {
      var i, j, k :| 0 <= i < |ps| && 0 <= j < |abis| && 0 <= k < |ls| && Combine(ps[i], abis[j], ls[k]) in supported;
      var t := Combine(ps[i], abis[j], ls[k]);
      assert Candidate(t, ps, abis, ls);
      Tags3Members(ps, abis, ls, t);
      assert t in Tags3(ps, abis, ls) * supported;
    }
  }

  /** Adding supported tags never turns a compatible wheel into an incompatible one. */
  lemma CompatibleMonotone(ps: seq<string>, abis: seq<string>, ls: seq<string>, supported: set<string>, more: set<string>)
    requires supported <= more && Compatible(ps, abis, ls, supported)
    ensures Compatible(ps, abis, ls, more)
  {
  }

  // ---------------------------------------------------------------------------
  // How many candidates there are

  /** One more row of `b` elements. */
  lemma MulStep(a: nat, b: nat)
    requires a >= 1
    ensures a * b == (a - 1) * b + b
  {
  }

  lemma {:induction false} Tags1Size(p: string, a: string, ls: seq<string>)
    ensures |Tags1(p, a, ls)| <= |ls|
    decreases |ls|
  {
    if |ls| > 0 {
      Tags1Size(p, a, ls[..|ls| - 1]);
    }
  }

  lemma {:induction false} Tags2Size(p: string, abis: seq<string>, ls: seq<string>)
    ensures |Tags2(p, abis, ls)| <= |abis| * |ls|
    decreases |abis|
  {
    if |abis| > 0 {
      Tags2Size(p, abis[..|abis| - 1], ls);
      Tags1Size(p, abis[|abis| - 1], ls);
      MulStep(|abis|, |ls|);
    }
  }

  /** There are at most m·n·k candidates. */
  lemma {:induction false} Tags3Size(ps: seq<string>, abis: seq<string>, ls: seq<string>)
    ensures |Tags3(ps, abis, ls)| <= |ps| * |abis| * |ls|
    decreases |ps|
  {
    if |ps| > 0 {
      Tags3Size(ps[..|ps| - 1], abis, ls);
      Tags2Size(ps[|ps| - 1], abis, ls);
      MulStep(|ps|, |abis| * |ls|);
      assert |ps| * |abis| * |ls| == |ps| * (|abis| * |ls|);
      assert (|ps| - 1) * |abis| * |ls| == (|ps| - 1) * (|abis| * |ls|);
    }
  }

  /** No element holds the separator '-'. */
  predicate DashFreeAll(xs: seq<string>)
  {
    forall i :: 0 <= i < |xs| ==> '-' !in xs[i]
  }

  /** Joining dash-free fields with '-' loses nothing: the fields come back by splitting. */
  lemma CombineInjective(p: string, a: string, l: string, p': string, a': string, l': string)
    requires '-' !in p && '-' !in a && '-' !in l && '-' !in p' && '-' !in a' && '-' !in l'
    requires Combine(p, a, l) == Combine(p', a', l')
    ensures p == p' && a == a' && l == l'
  {
    SplitJoin([p, a, l], '-');
    SplitJoin([p', a', l'], '-');
  }

  /** Every candidate built from `ps` has its python field in `ps`. */
  lemma PythonFieldIn(ps: seq<string>, abis: seq<string>, ls: seq<string>, t: string, p: string, a: string, l: string)
    requires DashFreeAll(ps) && DashFreeAll(abis) && DashFreeAll(ls)
    requires '-' !in p && '-' !in a && '-' !in l
    requires t in Tags3(ps, abis, ls) && t == Combine(p, a, l)
    ensures p in ps
  {
    Tags3Members(ps, abis, ls, t);
    var i, j, k :| 0 <= i < |ps| && 0 <= j < |abis| && 0 <= k < |ls| && t == Combine(ps[i], abis[j], ls[k]);
    CombineInjective(p, a, l, ps[i], abis[j], ls[k]);
  }

  lemma {:induction false} Tags1ExactSize(p: string, a: string, ls: seq<string>)
    requires '-' !in p && '-' !in a && DashFreeAll(ls) && Distinct(ls)
    ensures |Tags1(p, a, ls)| == |ls|
    decreases |ls|
  {
    if |ls| > 0 {
      var front, last := ls[..|ls| - 1], ls[|ls| - 1];
      Tags1ExactSize(p, a, front);
      if Combine(p, a, last) in Tags1(p, a, front) {
        Tags1Members(p, a, front, Combine(p, a, last));
        var k :| 0 <= k < |front| && Combine(p, a, last) == Combine(p, a, front[k]);
        CombineInjective(p, a, last, p, a, front[k]);
      }
    }
  }

  lemma {:induction false} Tags2ExactSize(p: string, abis: seq<string>, ls: seq<string>)
    requires '-' !in p && DashFreeAll(abis) && Distinct(abis) && DashFreeAll(ls) && Distinct(ls)
    ensures |Tags2(p, abis, ls)| == |abis| * |ls|
    decreases |abis|
  {
    if |abis| > 0 {
      var front, last := abis[..|abis| - 1], abis[|abis| - 1];
      Tags2ExactSize(p, front, ls);
      Tags1ExactSize(p, last, ls);
      MulStep(|abis|, |ls|);
      forall t | t in Tags2(p, front, ls) && t in Tags1(p, last, ls) ensures false {
        Tags2Members(p, front, ls, t);
        Tags1Members(p, last, ls, t);
        var j, k :| 0 <= j < |front| && 0 <= k < |ls| && t == Combine(p, front[j], ls[k]);
        var k' :| 0 <= k' < |ls| && t == Combine(p, last, ls[k']);
        CombineInjective(p, front[j], ls[k], p, last, ls[k']);
      }
      assert Tags2(p, front, ls) * Tags1(p, last, ls) == {};
    }
  }

  /** With distinct, dash-free alternatives there are exactly m·n·k candidates. */
  lemma {:induction false} Tags3ExactSize(ps: seq<string>, abis: seq<string>, ls: seq<string>)
    requires DashFreeAll(ps) && Distinct(ps)
    requires DashFreeAll(abis) && Distinct(abis)
    requires DashFreeAll(ls) && Distinct(ls)
    ensures |Tags3(ps, abis, ls)| == |ps| * |abis| * |ls|
    decreases |ps|
  {
    if |ps| > 0 {
      var front, last := ps[..|ps| - 1], ps[|ps| - 1];
      Tags3ExactSize(front, abis, ls);
      Tags2ExactSize(last, abis, ls);
      forall t | t in Tags3(front, abis, ls) && t in Tags2(last, abis, ls) ensures false {
        Tags2Members(last, abis, ls, t);
        var j, k :| 0 <= j < |abis| && 0 <= k < |ls| && t == Combine(last, abis[j], ls[k]);
        PythonFieldIn(front, abis, ls, t, last, abis[j], ls[k]);
      }
      assert Tags3(front, abis, ls) * Tags2(last, abis, ls) == {};
      MulStep(|ps|, |abis| * |ls|);
      assert |ps| * |abis| * |ls| == |ps| * (|abis| * |ls|);
      assert (|ps| - 1) * |abis| * |ls| == (|ps| - 1) * (|abis| * |ls|);
    }
  }
}
