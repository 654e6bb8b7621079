/** The glob matcher of `filter.py`: `_gm` and `matches_any_glob`.

    A path is a sequence of components, a pattern a sequence of pattern components.  `fnmatchcase`
    is a parameter: any predicate on (component, pattern component).
  */
module Globs {
  import opened Strings

  type Fnmatch = (string, string) -> bool

  /** The declarative meaning.  The cut points divide the path into one run of components for
      each pattern component: any run at all for `**`, one matching component otherwise. */
  ghost predicate Tiling(fn: Fnmatch, pp: seq<string>, sp: seq<string>, cuts: seq<nat>) {
    && |cuts| == |pp| + 1
    && cuts[0] == 0 && cuts[|pp|] == |sp|
    && forall i :: 0 <= i < |pp| ==> TileFits(fn, pp[i], sp, cuts[i], cuts[i + 1])
  }

  ghost predicate TileFits(fn: Fnmatch, p: string, sp: seq<string>, lo: nat, hi: nat) {
    lo <= hi <= |sp| && (p == "**" || (hi == lo + 1 && fn(sp[lo], p)))
  }

  ghost predicate Matches(fn: Fnmatch, pp: seq<string>, sp: seq<string>) {
    exists cuts :: Tiling(fn, pp, sp, cuts)
  }

  /** The same relation, by recursion on both sequences. */
  predicate Match(fn: Fnmatch, pp: seq<string>, sp: seq<string>)
    decreases |pp| + |sp|
  {
    if pp == [] then sp == []
    else if pp[0] == "**" then
      Match(fn, pp[1..], sp) || (sp != [] && Match(fn, pp, sp[1..]))
    else
      sp != [] && fn(sp[0], pp[0]) && Match(fn, pp[1..], sp[1..])
  }

  lemma {:induction false} MatchHasTiling(fn: Fnmatch, pp: seq<string>, sp: seq<string>)
      returns (cuts: seq<nat>)
    requires Match(fn, pp, sp)
    ensures Tiling(fn, pp, sp, cuts)
    decreases |pp| + |sp|
  {
    if pp == [] {
      cuts := [0];
    } else if pp[0] == "**" && Match(fn, pp[1..], sp) {
      var rest := MatchHasTiling(fn, pp[1..], sp);
      cuts := [0] + rest;
      assert forall i :: 0 < i < |pp| ==> pp[i] == pp[1..][i - 1] && cuts[i] == rest[i - 1];
    } else if pp[0] == "**" {
      var rest := MatchHasTiling(fn, pp, sp[1..]);
      cuts := seq(|rest|, i requires 0 <= i < |rest| => if i == 0 then 0 else rest[i] + 1);
      assert TileFits(fn, pp[0], sp[1..], rest[0], rest[1]);
      forall i | 0 <= i < |pp| ensures TileFits(fn, pp[i], sp, cuts[i], cuts[i + 1]) {
        assert TileFits(fn, pp[i], sp[1..], rest[i], rest[i + 1]);
      }
    } else {
      var rest := MatchHasTiling(fn, pp[1..], sp[1..]);
      cuts := [0] + seq(|rest|, i requires 0 <= i < |rest| => rest[i] + 1);
      forall i | 0 < i < |pp| ensures TileFits(fn, pp[i], sp, cuts[i], cuts[i + 1]) {
        assert TileFits(fn, pp[1..][i - 1], sp[1..], rest[i - 1], rest[i]);
      }
    }
  }

  lemma {:induction false} TilingMatches(fn: Fnmatch, pp: seq<string>, sp: seq<string>, cuts: seq<nat>)
    requires Tiling(fn, pp, sp, cuts)
    ensures Match(fn, pp, sp)
    decreases |pp| + |sp|
  {
    if pp != [] {
      assert TileFits(fn, pp[0], sp, cuts[0], cuts[1]);
      if cuts[1] == 0 {
        TilingMatches(fn, pp[1..], sp, cuts[1..]);
      } else if pp[0] == "**" {
        TilingsGrow(fn, pp, sp, cuts, 1);
        var less := seq(|cuts|, i requires 0 <= i < |cuts| => if i == 0 then 0 else cuts[i] - 1);
        forall i | 0 <= i < |pp| ensures TileFits(fn, pp[i], sp[1..], less[i], less[i + 1]) {
          assert TileFits(fn, pp[i], sp, cuts[i], cuts[i + 1]);
        }
        TilingMatches(fn, pp, sp[1..], less);
      } else {
        TilingsGrow(fn, pp, sp, cuts, 1);
        var less := seq(|pp|, i requires 0 <= i < |pp| => cuts[i + 1] - 1);
        forall i | 0 <= i < |pp| - 1 ensures TileFits(fn, pp[1..][i], sp[1..], less[i], less[i + 1]) {
          assert TileFits(fn, pp[i + 1], sp, cuts[i + 1], cuts[i + 2]);
        }
        TilingMatches(fn, pp[1..], sp[1..], less);
      }
    }
  }

  lemma {:induction false} TilingsGrow(fn: Fnmatch, pp: seq<string>, sp: seq<string>, cuts: seq<nat>, k: nat)
    requires Tiling(fn, pp, sp, cuts) && k <= |pp|
    ensures forall i :: k <= i <= |pp| ==> cuts[k] <= cuts[i]
    decreases |pp| - k
  {
    if k < |pp| {
      assert TileFits(fn, pp[k], sp, cuts[k], cuts[k + 1]);
      TilingsGrow(fn, pp, sp, cuts, k + 1);
    }
  }

  lemma MatchIffMatches(fn: Fnmatch, pp: seq<string>, sp: seq<string>)
    ensures Match(fn, pp, sp) <==> Matches(fn, pp, sp)
  {
    if Match(fn, pp, sp) {
      var cuts := MatchHasTiling(fn, pp, sp);
    }
    if Matches(fn, pp, sp) {
      var cuts :| Tiling(fn, pp, sp, cuts);
      TilingMatches(fn, pp, sp, cuts);
    }
  }

  /** `**` followed by a pattern: some suffix of the path matches the rest. */
  lemma {:induction false} StarSearchesSuffixes(fn: Fnmatch, pp: seq<string>, sp: seq<string>)
    requires pp != [] && pp[0] == "**"
    ensures Match(fn, pp, sp) <==> exists j :: 0 <= j <= |sp| && Match(fn, pp[1..], sp[j..])
    decreases |sp|
  {
    assert sp[0..] == sp;
    if sp != [] {
      StarSearchesSuffixes(fn, pp, sp[1..]);
      assert forall j :: 0 <= j < |sp| ==> sp[1..][j..] == sp[j + 1..];
      if j :| 0 <= j <= |sp| && Match(fn, pp[1..], sp[j..]) && j > 0 {
        assert sp[1..][j - 1..] == sp[j..];
      }
    }
  }

  /** Consecutive `**` collapse to one. */
  lemma {:induction false} ConsecutiveStarsCollapse(fn: Fnmatch, pp: seq<string>, sp: seq<string>)
    requires |pp| >= 2 && pp[0] == pp[1] == "**"
    ensures Match(fn, pp, sp) <==> Match(fn, pp[1..], sp)
  {
    StarSearchesSuffixes(fn, pp, sp);
    StarSearchesSuffixes(fn, pp[1..], sp);
    forall j | 0 <= j <= |sp| && Match(fn, pp[1..], sp[j..]) ensures Match(fn, pp[1..], sp) {
      StarSearchesSuffixes(fn, pp[1..], sp[j..]);
      var k :| 0 <= k <= |sp[j..]| && Match(fn, pp[1..][1..], sp[j..][k..]);
      assert sp[j..][k..] == sp[j + k..];
    }
  }

  lemma {:induction false} LoneStarMatchesAll(fn: Fnmatch, sp: seq<string>)
    ensures Match(fn, ["**"], sp)
    decreases |sp|
  {
    if sp != [] {
      LoneStarMatchesAll(fn, sp[1..]);
    }
  }

  lemma StarSearchesFrom(fn: Fnmatch, pp: seq<string>, pi: nat, sp: seq<string>, si: nat)
    requires pi < |pp| && pp[pi] == "**" && si <= |sp|
    ensures Match(fn, pp[pi..], sp[si..]) <==> SomeSuffixMatches(fn, pp[pi + 1..], sp, si)
  {
    StarSearchesSuffixes(fn, pp[pi..], sp[si..]);
    assert pp[pi..][1..] == pp[pi + 1..];
    forall j | 0 <= j <= |sp| - si
      ensures Match(fn, pp[pi + 1..], sp[si..][j..]) <==> Matches(fn, pp[pi + 1..], sp[si + j..])
    {
      assert sp[si..][j..] == sp[si + j..];
      MatchIffMatches(fn, pp[pi + 1..], sp[si + j..]);
    }
    if j :| si <= j <= |sp| && Matches(fn, pp[pi + 1..], sp[j..]) {
      assert Match(fn, pp[pi + 1..], sp[si..][j - si..]);
    }
  }

  ghost predicate SomeSuffixMatches(fn: Fnmatch, pp: seq<string>, sp: seq<string>, si: nat) {
    exists j :: si <= j <= |sp| && Matches(fn, pp, sp[j..])
  }

  /** The inner loop of `_gm`: on to the last of a run of `**`. */
  method SkipRun(pp: seq<string>, pi0: nat) returns (pi: nat)
    requires pi0 < |pp| && pp[pi0] == "**"
    ensures pi0 <= pi < |pp| && forall k :: pi0 <= k <= pi ==> pp[k] == "**"
    ensures pi + 1 < |pp| ==> pp[pi + 1] != "**"
  {
    pi := pi0;
    while pi + 1 < |pp| && pp[pi + 1] == "**"
      invariant pi0 <= pi < |pp| && forall k :: pi0 <= k <= pi ==> pp[k] == "**"
      decreases |pp| - pi
    {
      pi := pi + 1;
    }
  }

  /** A run of `**` does what its last one does. */
  lemma {:induction false} RunCollapses(fn: Fnmatch, pp: seq<string>, pi0: nat, pi: nat, sp: seq<string>)
    requires pi0 <= pi < |pp| && forall k :: pi0 <= k <= pi ==> pp[k] == "**"
    ensures Match(fn, pp[pi0..], sp) <==> Match(fn, pp[pi..], sp)
    decreases pi - pi0
  {
    if pi0 < pi {
      assert pp[pi0..][1..] == pp[pi0 + 1..];
      ConsecutiveStarsCollapse(fn, pp[pi0..], sp);
      RunCollapses(fn, pp, pi0 + 1, pi, sp);
    }
  }

  /** Its `any(...)` over the suffixes. */
  method AnySuffix(fn: Fnmatch, pp: seq<string>, pi: nat, sp: seq<string>, si: nat) returns (r: bool)
    requires pi <= |pp| && si <= |sp|
    ensures r <==> SomeSuffixMatches(fn, pp[pi..], sp, si)
    decreases |pp| - pi, 1
  {
    var j := si;
    while j <= |sp|
      invariant si <= j <= |sp| + 1
      invariant forall k :: si <= k < j ==> !Matches(fn, pp[pi..], sp[k..])
    {
      var m := Gm(fn, pp, pi, sp, j);
      if m {
        return true;
      }
      j := j + 1;
    }
    return false;
  }

  /** `_gm`, with its index loop, its collapsing of runs and its search over suffixes. */
  method Gm(fn: Fnmatch, pp: seq<string>, pi0: nat, sp: seq<string>, si0: nat) returns (r: bool)
    requires pi0 <= |pp| && si0 <= |sp|
    ensures r <==> Matches(fn, pp[pi0..], sp[si0..])
    decreases |pp| - pi0, 0
  {
    MatchIffMatches(fn, pp[pi0..], sp[si0..]);
    var pi, si := pi0, si0;
    while pi < |pp|
      invariant pi0 <= pi <= |pp| && si <= |sp|
      invariant Match(fn, pp[pi..], sp[si..]) <==> Match(fn, pp[pi0..], sp[si0..])
    {
      assert pp[pi..][1..] == pp[pi + 1..];
      if pp[pi] == "**" {
        var last := SkipRun(pp, pi);
        RunCollapses(fn, pp, pi, last, sp[si..]);
        pi := last;
        if pi == |pp| - 1 {
          assert pp[pi..] == ["**"];
          LoneStarMatchesAll(fn, sp[si..]);
          return true;
        }
        StarSearchesFrom(fn, pp, pi, sp, si);
        r := AnySuffix(fn, pp, pi + 1, sp, si);
        return;
      }
      if si >= |sp| {
        return false;
      }
      assert sp[si..][1..] == sp[si + 1..];
      if !fn(sp[si], pp[pi]) {
        return false;
      }
      pi := pi + 1;
      si := si + 1;
    }
    return si == |sp|;
  }

  /** Some pattern of the list, split at "/", matches the path. */
  ghost predicate MatchesSome(fn: Fnmatch, sp: seq<string>, patterns: seq<string>) {
    exists k :: 0 <= k < |patterns| && Matches(fn, Split(patterns[k]), sp)
  }

  /** `matches_any_glob` */
  method MatchesAnyGlob(fn: Fnmatch, sp: seq<string>, patterns: seq<string>) returns (r: bool)
    ensures r <==> MatchesSome(fn, sp, patterns)
  {
    var k := 0;
    while k < |patterns|
      invariant 0 <= k <= |patterns|
      invariant forall j :: 0 <= j < k ==> !Matches(fn, Split(patterns[j]), sp)
    {
      var pp := Split(patterns[k]);
      var m := Gm(fn, pp, 0, sp, 0);
      assert pp[0..] == pp && sp[0..] == sp;
      if m {
        return true;
      }
      k := k + 1;
    }
    return false;
  }

  /** What a directory entry can be called. */
  predicate IsName(s: string) {
    IsComponent(s) && s != ".." && '\0' !in s
  }

  predicate IsPath(sp: seq<string>) {
    forall i :: 0 <= i < |sp| ==> IsName(sp[i])
  }

  predicate EndsInStarStar(pp: seq<string>) {
    pp != [] && pp[|pp| - 1] == "**"
  }

  ghost predicate AcceptsAll(fn: Fnmatch, p: string) {
    forall x :: IsName(x) ==> fn(x, p)
  }

  /** Component i is the last `**`, and the components after it accept every name. */
  ghost predicate OpenFrom(fn: Fnmatch, pp: seq<string>, i: nat)
    requires i < |pp|
  {
    pp[i] == "**" && forall k :: i < k < |pp| ==> pp[k] != "**" && AcceptsAll(fn, pp[k])
  }

  ghost predicate IsSubtreePattern(fn: Fnmatch, pp: seq<string>) {
    exists i: nat :: i < |pp| && OpenFrom(fn, pp, i)
  }

  /** A `**` takes up what is added below if the components after it accept all there is. */
  lemma StarTakesBelow(fn: Fnmatch, pp: seq<string>, sp: seq<string>, below: seq<string>, i: nat)
    requires i < |pp| && pp[i] == "**" && Matches(fn, pp, sp)
    requires forall k, x :: i < k < |pp| && x in sp + below ==> fn(x, pp[k])
    ensures Matches(fn, pp, sp + below)
  {
    var cuts :| Tiling(fn, pp, sp, cuts);
    var longer := seq(|cuts|, j requires 0 <= j < |cuts| => if j <= i then cuts[j] else cuts[j] + |below|);
    forall j | 0 <= j < |pp| ensures TileFits(fn, pp[j], sp + below, longer[j], longer[j + 1]) {
      assert TileFits(fn, pp[j], sp, cuts[j], cuts[j + 1]);
      assert j > i && longer[j] < |sp + below| ==> (sp + below)[longer[j]] in sp + below;
      TilingsGrow(fn, pp, sp, cuts, j + 1);
    }
    assert Tiling(fn, pp, sp + below, longer);
  }

  /** So a pattern of this kind, if it matches a directory, matches everything below it. */
  lemma SubtreePatternCoversSubtree(fn: Fnmatch, pp: seq<string>, sp: seq<string>, below: seq<string>)
    requires IsSubtreePattern(fn, pp) && Matches(fn, pp, sp) && IsPath(sp) && IsPath(below)
    ensures Matches(fn, pp, sp + below)
  {
    var i: nat :| i < |pp| && OpenFrom(fn, pp, i);
    StarTakesBelow(fn, pp, sp, below, i);
  }

  /** And so does one that ends in `**`. */
  lemma TrailingStarsCoverSubtree(fn: Fnmatch, pp: seq<string>, sp: seq<string>, below: seq<string>)
    requires EndsInStarStar(pp) && Matches(fn, pp, sp)
    ensures IsSubtreePattern(fn, pp) && Matches(fn, pp, sp + below)
  {
    assert OpenFrom(fn, pp, |pp| - 1);
    StarTakesBelow(fn, pp, sp, below, |pp| - 1);
  }

  /** Without a `**` from component k on, the rest of the pattern lies on the end of the path. */
  lemma {:induction false} TailIsAligned(fn: Fnmatch, pp: seq<string>, sp: seq<string>, cuts: seq<nat>, k: nat)
    requires Tiling(fn, pp, sp, cuts) && k <= |pp| && forall j :: k <= j < |pp| ==> pp[j] != "**"
    ensures cuts[k] == |sp| - (|pp| - k)
    decreases |pp| - k
  {
    if k < |pp| {
      assert TileFits(fn, pp[k], sp, cuts[k], cuts[k + 1]);
      TailIsAligned(fn, pp, sp, cuts, k + 1);
    }
  }

  lemma TailMustMatch(fn: Fnmatch, pp: seq<string>, sp: seq<string>, k: nat)
    requires k < |pp| && Matches(fn, pp, sp) && forall j :: k <= j < |pp| ==> pp[j] != "**"
    ensures |pp| - k <= |sp| && fn(sp[|sp| - (|pp| - k)], pp[k])
  {
    var cuts :| Tiling(fn, pp, sp, cuts);
    TailIsAligned(fn, pp, sp, cuts, k);
    assert TileFits(fn, pp[k], sp, cuts[k], cuts[k + 1]);
  }

  lemma StarlessMatchesOneLength(fn: Fnmatch, pp: seq<string>, sp: seq<string>)
    requires "**" !in pp && Matches(fn, pp, sp)
    ensures |sp| == |pp|
  {
    var cuts :| Tiling(fn, pp, sp, cuts);
    TailIsAligned(fn, pp, sp, cuts, 0);
  }

  lemma {:induction false} LastStar(pp: seq<string>) returns (i: nat)
    requires "**" in pp
    ensures i < |pp| && pp[i] == "**" && forall k :: i < k < |pp| ==> pp[k] != "**"
  {
    i := |pp| - 1;
    while pp[i] != "**"
      invariant i < |pp| && "**" in pp[..i + 1] && forall k :: i < k < |pp| ==> pp[k] != "**"
      decreases i
    {
      assert pp[..i + 1] == pp[..i] + [pp[i]];
      i := i - 1;
    }
  }

  /** A pattern of any other kind misses something below what it matches: enough copies of a name that
      one of the components after the last `**` rejects. */
  lemma OtherPatternMissesSomeBelow(fn: Fnmatch, pp: seq<string>, sp: seq<string>) returns (below: seq<string>)
    requires !IsSubtreePattern(fn, pp) && Matches(fn, pp, sp)
    ensures IsPath(below) && !Matches(fn, pp, sp + below)
  {
    if "**" !in pp {
      below := ["a"];
      StarlessMatchesOneLength(fn, pp, sp);
      if Matches(fn, pp, sp + below) {
        StarlessMatchesOneLength(fn, pp, sp + below);
      }
    } else {
      var i := LastStar(pp);
      assert !OpenFrom(fn, pp, i);
      var k :| i < k < |pp| && !AcceptsAll(fn, pp[k]);
      var x :| IsName(x) && !fn(x, pp[k]);
      below := seq(|pp| - i, _ => x);
      assert (sp + below)[|sp + below| - (|pp| - k)] == x;
      if Matches(fn, pp, sp + below) {
        TailMustMatch(fn, pp, sp + below, k);
      }
    }
  }

  /** Exactly the patterns whose last `**` is followed only by components that accept every name are
      closed under extending a path they match. */
  lemma ClosedExactlyForSubtreePatterns(fn: Fnmatch, pp: seq<string>, sp: seq<string>)
    requires IsPath(sp) && Matches(fn, pp, sp)
    ensures (forall below :: IsPath(below) ==> Matches(fn, pp, sp + below)) <==> IsSubtreePattern(fn, pp)
  {
    if IsSubtreePattern(fn, pp) {
      forall below | IsPath(below) ensures Matches(fn, pp, sp + below) {
        SubtreePatternCoversSubtree(fn, pp, sp, below);
      }
    } else {
      var below := OtherPatternMissesSomeBelow(fn, pp, sp);
      assert !Matches(fn, pp, sp + below);
    }
  }

  ghost predicate SubtreePatterns(fn: Fnmatch, patterns: seq<string>) {
    forall k :: 0 <= k < |patterns| ==> IsSubtreePattern(fn, Split(patterns[k]))
  }

  lemma IgnoreListCoversSubtree(fn: Fnmatch, patterns: seq<string>, sp: seq<string>, below: seq<string>)
    requires SubtreePatterns(fn, patterns)
    requires MatchesSome(fn, sp, patterns) && IsPath(sp) && IsPath(below)
    ensures MatchesSome(fn, sp + below, patterns)
  {
    var k :| 0 <= k < |patterns| && Matches(fn, Split(patterns[k]), sp);
    SubtreePatternCoversSubtree(fn, Split(patterns[k]), sp, below);
  }

  /** The staging pattern of the documentation, `**` / x / `**`: some component matches x. */
  lemma StagingPatternMeaning(fn: Fnmatch, x: string, sp: seq<string>)
    requires x != "**"
    ensures Matches(fn, ["**", x, "**"], sp) <==> exists i :: 0 <= i < |sp| && fn(sp[i], x)
  {
    var pp := ["**", x, "**"];
    if Matches(fn, pp, sp) {
      var cuts :| Tiling(fn, pp, sp, cuts);
      assert TileFits(fn, pp[1], sp, cuts[1], cuts[2]);
    }
    if i :| 0 <= i < |sp| && fn(sp[i], x) {
      assert Tiling(fn, pp, sp, [0, i, i + 1, |sp|]);
    }
  }
}
