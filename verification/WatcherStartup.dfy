/** `__aenter__`: the preflight count against what startup then watches, and the watched directories
    against what the event filter lets through. */
module WatcherStartup {
  import opened Prelude
  import opened Strings
  import opened Globs
  import opened Ownership
  import opened Watcher

  datatype Startup = Ready | LimitError(needed: nat, available: nat)

  ghost predicate NonNested(ws: seq<Watch>) {
    forall i, j :: 0 <= i < |ws| && 0 <= j < |ws| && i != j ==> !(ws[i].path <= ws[j].path)
  }

  ghost function Needed(fs: Fs, fn: Fnmatch, ws: seq<Watch>): nat {
    if ws == [] then 0 else Needed(fs, fn, ws[..|ws| - 1]) + |Watchable(fs, fn, ws[|ws| - 1])|
  }

  /** The dictionary after the watches were added one after the other. */
  ghost function Bookkeeping(fs: Fs, fn: Fnmatch, ws: seq<Watch>): map<Path, Watch> {
    if ws == [] then map[]
    else
      var m, w := Bookkeeping(fs, fn, ws[..|ws| - 1]), ws[|ws| - 1];
      WithWatches(m, NewWatches(fs, fn, m.Keys, w, w.path), w)
  }

  lemma {:induction false} BookkeepingGrows(fs: Fs, fn: Fnmatch, ws: seq<Watch>, k: nat)
    requires k <= |ws|
    ensures |Bookkeeping(fs, fn, ws[..k])| <= |Bookkeeping(fs, fn, ws)|
  {
    if k < |ws| {
      var front, w := ws[..|ws| - 1], ws[|ws| - 1];
      BookkeepingGrows(fs, fn, front, k);
      assert front[..k] == ws[..k];
      var m := Bookkeeping(fs, fn, front);
      MoreWatches(m, {}, NewWatches(fs, fn, m.Keys, w, w.path), w);
    } else {
      assert ws[..k] == ws;
    }
  }

  /** `__aenter__`.  `available` is what the kernel says it allows, `room` what it grants this process in
      the end: the preflight error if the count exceeds the one, the backstop if the watches exceed
      the other. */
  method Enter(watcher: InotifyWatcher, fs: Fs, fn: Fnmatch, ws: seq<Watch>, available: Option<nat>, room: nat)
      returns (r: Startup)
    requires watcher.Valid() && watcher.dirToConfig == map[]
    modifies watcher
    ensures watcher.Valid()
    ensures available.Some? && available.value < Needed(fs, fn, ws) ==>
              r == LimitError(Needed(fs, fn, ws), available.value) && watcher.dirToConfig == map[]
    ensures available.None? || Needed(fs, fn, ws) <= available.value ==>
              if |Bookkeeping(fs, fn, ws)| <= room then r == Ready && watcher.dirToConfig == Bookkeeping(fs, fn, ws)
              else r == LimitError(room + 1, room)
  {
    var needed, k := 0, 0;
    while k < |ws|
      invariant 0 <= k <= |ws| && needed == Needed(fs, fn, ws[..k])
      invariant watcher.Valid() && watcher.dirToConfig == map[]
    {
      var count := CountWatchableDirs(fs, fn, ws[k]);
      needed := needed + count;
      assert ws[..k + 1][..k] == ws[..k];
      k := k + 1;
    }
    assert ws[..k] == ws;
    if available.Some? && needed > available.value {
      return LimitError(needed, available.value);
    }
    var ok := AddAll(watcher, fs, fn, ws, room);
    if !ok {
      SameSize(watcher.dirToConfig);
      return LimitError(|watcher.dirToRoot| + 1, |watcher.dirToRoot|);
    }
    return Ready;
  }

  method AddAll(watcher: InotifyWatcher, fs: Fs, fn: Fnmatch, ws: seq<Watch>, room: nat) returns (ok: bool)
    requires watcher.Valid() && watcher.dirToConfig == map[]
    modifies watcher
    ensures watcher.Valid() && Fits(ok, watcher.dirToConfig, Bookkeeping(fs, fn, ws), room)
  {
    var k := 0;
    while k < |ws|
      invariant 0 <= k <= |ws| && watcher.Valid() && Fits(true, watcher.dirToConfig, Bookkeeping(fs, fn, ws[..k]), room)
    {
      BookkeepingGrows(fs, fn, ws, k + 1);
      BookkeepingStep(fs, fn, ws, k);
      ok := watcher.AddRecursive(fs, fn, ws[k].path, ws[k], room);
      if !ok {
        return;
      }
      k := k + 1;
    }
    assert ws[..k] == ws;
    ok := true;
  }

  lemma BookkeepingStep(fs: Fs, fn: Fnmatch, ws: seq<Watch>, k: nat)
    requires k < |ws|
    ensures var m := Bookkeeping(fs, fn, ws[..k]);
      Bookkeeping(fs, fn, ws[..k + 1]) == WithWatches(m, NewWatches(fs, fn, m.Keys, ws[k], ws[k].path), ws[k])
  {
    assert ws[..k + 1][..k] == ws[..k];
  }

  /** Directories known before can only make fewer new ones. */
  lemma KnownOnlyRemoves(fs: Fs, fn: Fnmatch, known: set<Path>, w: Watch)
    ensures NewWatches(fs, fn, known, w, w.path) <= Watchable(fs, fn, w) - known
  {
    forall d | d in NewWatches(fs, fn, known, w, w.path) ensures d in Watchable(fs, fn, w) && d !in known {
      assert d[..|d|] == d && Passable(fs, fn, known, w, d, |d|);
      forall n | |w.path| <= n <= |d| ensures Passable(fs, fn, {}, w, d, n) {
        assert Passable(fs, fn, known, w, d, n);
      }
    }
  }

  /** The preflight never counts too few: what startup watches is at most the sum of the counts. */
  lemma {:induction false} PreflightSuffices(fs: Fs, fn: Fnmatch, ws: seq<Watch>)
    ensures |Bookkeeping(fs, fn, ws)| <= Needed(fs, fn, ws)
  {
    if ws != [] {
      var front, w := ws[..|ws| - 1], ws[|ws| - 1];
      PreflightSuffices(fs, fn, front);
      var m := Bookkeeping(fs, fn, front);
      var more := NewWatches(fs, fn, m.Keys, w, w.path);
      KnownOnlyRemoves(fs, fn, m.Keys, w);
      SubsetSize(more, Watchable(fs, fn, w));
      assert Bookkeeping(fs, fn, ws).Keys == m.Keys + more;
    }
  }

  ghost predicate InReach(fs: Fs, fn: Fnmatch, ws: seq<Watch>, d: Path) {
    exists i :: 0 <= i < |ws| && d in Watchable(fs, fn, ws[i])
  }

  lemma InReachOfFrontOrLast(fs: Fs, fn: Fnmatch, ws: seq<Watch>, d: Path)
    requires ws != []
    ensures InReach(fs, fn, ws, d)
       <==> InReach(fs, fn, ws[..|ws| - 1], d) || d in Watchable(fs, fn, ws[|ws| - 1])
  {
    var front := ws[..|ws| - 1];
    if i :| 0 <= i < |front| && d in Watchable(fs, fn, front[i]) {
      assert front[i] == ws[i];
    }
    if i :| 0 <= i < |ws| - 1 && d in Watchable(fs, fn, ws[i]) {
      assert front[i] == ws[i];
    }
  }

  lemma {:induction false} WatchedFrom(fs: Fs, fn: Fnmatch, ws: seq<Watch>, d: Path)
    requires NonNested(ws)
    ensures d in Bookkeeping(fs, fn, ws) <==> InReach(fs, fn, ws, d)
    ensures d in Bookkeeping(fs, fn, ws) ==> Bookkeeping(fs, fn, ws)[d] in ws && Bookkeeping(fs, fn, ws)[d].path <= d
    decreases |ws|, 1
  {
    if ws != [] {
      WatchedFrom(fs, fn, ws[..|ws| - 1], d);
      NewSubtreeIsWhole(fs, fn, ws);
      InReachOfFrontOrLast(fs, fn, ws, d);
    }
  }

  /** With roots side by side an added watch meets no directory that is known already. */
  lemma {:induction false} NewSubtreeIsWhole(fs: Fs, fn: Fnmatch, ws: seq<Watch>)
    requires NonNested(ws) && ws != []
    ensures var m, w := Bookkeeping(fs, fn, ws[..|ws| - 1]), ws[|ws| - 1];
      NewWatches(fs, fn, m.Keys, w, w.path) == Watchable(fs, fn, w) && m.Keys !! Watchable(fs, fn, w)
    decreases |ws|, 0
  {
    var n := |ws| - 1;
    var front, w := ws[..n], ws[n];
    var m := Bookkeeping(fs, fn, front);
    forall p | p in m ensures !(w.path <= p) {
      WatchedFrom(fs, fn, front, p);
      var i :| 0 <= i < |front| && front[i] == m[p];
      PrefixesCompare(ws[i].path, w.path, p);
      PrefixesCompare(w.path, ws[i].path, p);
    }
    forall d ensures Reached(fs, fn, {}, w, w.path, d) <==> Reached(fs, fn, m.Keys, w, w.path, d) {
      ReachedElsewhere(fs, fn, {}, m.Keys, w, w.path, d);
    }
    KnownOnlyRemoves(fs, fn, m.Keys, w);
  }

  /** With roots side by side it is exact. */
  lemma {:induction false} PreflightIsExact(fs: Fs, fn: Fnmatch, ws: seq<Watch>)
    requires NonNested(ws)
    ensures |Bookkeeping(fs, fn, ws)| == Needed(fs, fn, ws)
  {
    if ws != [] {
      PreflightIsExact(fs, fn, ws[..|ws| - 1]);
      NewSubtreeIsWhole(fs, fn, ws);
      var m, w := Bookkeeping(fs, fn, ws[..|ws| - 1]), ws[|ws| - 1];
      assert Bookkeeping(fs, fn, ws).Keys == m.Keys + Watchable(fs, fn, w);
      assert |m.Keys + Watchable(fs, fn, w)| == |m.Keys| + |Watchable(fs, fn, w)|;
    }
  }

  /** A watch whose root an earlier one already covers adds nothing, not even the directories that
      only the earlier one ignores. */
  lemma NestedWatchAddsNothing(fs: Fs, fn: Fnmatch, ws: seq<Watch>, w: Watch)
    requires w.path in Bookkeeping(fs, fn, ws)
    ensures Bookkeeping(fs, fn, ws + [w]) == Bookkeeping(fs, fn, ws)
  {
    assert (ws + [w])[..|ws|] == ws;
    NothingNew(fs, fn, Bookkeeping(fs, fn, ws).Keys, w, w.path);
  }

  // ---------------------------------------------------------------- pruning and filtering

  /** Directories and files are called as directory entries can be. */
  ghost predicate Named(fs: Fs) {
    forall p :: p in fs.dirs || p in fs.files ==> IsPath(p)
  }

  /** What is below an ignored path is ignored. */
  ghost predicate IgnoresSubtrees(fn: Fnmatch, w: Watch) {
    forall p, q :: p <= q && IsPath(q) && Ignored(fn, w, p) ==> Ignored(fn, w, q)
  }

  /** So it is if every ignore pattern is closed under extending the path. */
  lemma IgnoredBelow(fn: Fnmatch, w: Watch, p: Path, q: Path)
    requires SubtreePatterns(fn, w.ignore) && Ignored(fn, w, p) && p <= q && IsPath(q)
    ensures Ignored(fn, w, q)
  {
    var k := |w.path|;
    assert q[k..] == p[k..] + q[|p|..];
    IgnoreListCoversSubtree(fn, w.ignore, p[k..], q[|p|..]);
  }

  /** The root and the directories below it that the filter would not ignore. */
  ghost function Unfiltered(fs: Fs, fn: Fnmatch, w: Watch): set<Path> {
    {w.path} + set d | d in fs.dirs && w.path <= d && !Ignored(fn, w, d)
  }

  /** Then pruning the walk and asking the filter about each directory come to the same. */
  lemma PruningIsFiltering(fs: Fs, fn: Fnmatch, w: Watch)
    requires SubtreePatterns(fn, w.ignore) && IsTree(fs) && Named(fs) && w.path in fs.dirs
    ensures Watchable(fs, fn, w) == Unfiltered(fs, fn, w)
  {
    forall p, q | p <= q && IsPath(q) && Ignored(fn, w, p) ensures Ignored(fn, w, q) {
      IgnoredBelow(fn, w, p, q);
    }
    PrunedIsFiltered(fs, fn, w);
  }

  lemma PrunedIsFiltered(fs: Fs, fn: Fnmatch, w: Watch)
    requires IgnoresSubtrees(fn, w) && IsTree(fs) && Named(fs) && w.path in fs.dirs
    ensures Watchable(fs, fn, w) == Unfiltered(fs, fn, w)
  {
    forall d | d in fs.dirs && w.path <= d && (d == w.path || !Ignored(fn, w, d)) ensures d in Watchable(fs, fn, w) {
      forall n | |w.path| <= n <= |d| ensures Passable(fs, fn, {}, w, d, n) {
        AncestorsExist(fs, d, n);
        assert w.path <= d[..n] && d[..n] <= d;
      }
    }
    forall d | d in Watchable(fs, fn, w) ensures d == w.path || !Ignored(fn, w, d) {
      assert Passable(fs, fn, {}, w, d, |d|) && d[..|d|] == d;
    }
  }

  /** The directories on the way to p. */
  function Ancestors(p: Path): set<Path> {
    set n | 0 <= n <= |p| :: p[..n]
  }

  lemma AncestorsAreTree(p: Path)
    ensures IsTree(Fs(Ancestors(p), {})) && p in Ancestors(p)
  {
    assert p[..|p|] == p;
    forall d | d in Ancestors(p) && d != [] ensures Parent(d) in Ancestors(p) {
      var n :| 0 <= n <= |p| && d == p[..n];
      assert Parent(d) == p[..n - 1];
    }
  }

  ghost predicate MatchesNothing(fn: Fnmatch, pp: seq<string>) {
    forall sp :: IsPath(sp) ==> !Matches(fn, pp, sp)
  }

  /** On every tree of directory entries the two come to the same. */
  ghost predicate PrunesAsItFilters(fn: Fnmatch, w: Watch) {
    forall fs :: IsTree(fs) && Named(fs) && w.path in fs.dirs ==> Watchable(fs, fn, w) == Unfiltered(fs, fn, w)
  }

  /** And for a single pattern this is exact: unless it is of that kind, or matches no path there can be,
      some tree is pruned of directories the filter does not ignore. */
  lemma PruningIsFilteringExactly(fn: Fnmatch, w: Watch, pattern: string)
    requires w.ignore == [pattern] && IsPath(w.path)
    ensures PrunesAsItFilters(fn, w) <==> IsSubtreePattern(fn, Split(pattern)) || MatchesNothing(fn, Split(pattern))
  {
    var pp := Split(pattern);
    if IsSubtreePattern(fn, pp) {
      forall fs | IsTree(fs) && Named(fs) && w.path in fs.dirs ensures Watchable(fs, fn, w) == Unfiltered(fs, fn, w) {
        PruningIsFiltering(fs, fn, w);
      }
    } else if MatchesNothing(fn, pp) {
      forall fs | IsTree(fs) && Named(fs) && w.path in fs.dirs ensures Watchable(fs, fn, w) == Unfiltered(fs, fn, w) {
        NothingIsIgnored(fn, w, pattern);
        PrunedIsFiltered(fs, fn, w);
      }
    } else {
      var sp :| IsPath(sp) && Matches(fn, pp, sp);
      var below := OtherPatternMissesSomeBelow(fn, pp, sp);
      PrunedButNotFiltered(fn, w, pattern, sp, below);
    }
  }

  lemma NothingIsIgnored(fn: Fnmatch, w: Watch, pattern: string)
    requires w.ignore == [pattern] && MatchesNothing(fn, Split(pattern))
    ensures IgnoresSubtrees(fn, w)
  {
    forall p: Path, q | p <= q && IsPath(q) ensures !Ignored(fn, w, p) {
      assert w.path <= p ==> IsPath(p[|w.path|..]);
    }
  }

  lemma IgnoredByOne(fn: Fnmatch, w: Watch, pattern: string, rel: Path)
    requires w.ignore == [pattern]
    ensures Ignored(fn, w, w.path + rel) <==> Matches(fn, Split(pattern), rel)
  {
    assert (w.path + rel)[|w.path|..] == rel && w.ignore[0] == pattern;
  }

  lemma PrunedButNotFiltered(fn: Fnmatch, w: Watch, pattern: string, sp: seq<string>, below: seq<string>)
    requires w.ignore == [pattern] && !IsSubtreePattern(fn, Split(pattern))
    requires Matches(fn, Split(pattern), sp) && !Matches(fn, Split(pattern), sp + below)
    requires IsPath(w.path) && IsPath(sp) && IsPath(below)
    ensures !PrunesAsItFilters(fn, w)
  {
    var p := w.path + (sp + below);
    var fs, q := Fs(Ancestors(p), {}), w.path + sp;
    AncestorsAreTree(p);
    assert p[..|w.path|] == w.path && p[..|q|] == q && p[..|p|] == p;
    if sp == [] {
      EmptyPathNeedsStars(fn, Split(pattern));
    }
    IgnoredByOne(fn, w, pattern, sp);
    IgnoredByOne(fn, w, pattern, sp + below);
    assert p in Unfiltered(fs, fn, w);
    assert p in Watchable(fs, fn, w) ==> Passable(fs, fn, {}, w, p, |q|);
    assert Named(fs) && Watchable(fs, fn, w) != Unfiltered(fs, fn, w);
  }

  lemma EmptyPathNeedsStars(fn: Fnmatch, pp: seq<string>)
    requires pp != [] && Matches(fn, pp, [])
    ensures IsSubtreePattern(fn, pp)
  {
    var cuts :| Tiling(fn, pp, [], cuts);
    assert TileFits(fn, pp[|pp| - 1], [], cuts[|pp| - 1], cuts[|pp|]);
    assert OpenFrom(fn, pp, |pp| - 1);
  }

  lemma {:induction false} AncestorsExist(fs: Fs, d: Path, n: nat)
    requires IsTree(fs) && d in fs.dirs && n <= |d|
    ensures d[..n] in fs.dirs
    decreases |d| - n
  {
    if n < |d| {
      AncestorsExist(fs, d, n + 1);
      assert Parent(d[..n + 1]) == d[..n];
    } else {
      assert d[..n] == d;
    }
  }

  /** Every path the filter can report has a watched parent: for roots side by side and patterns
      closed under extending the path, an existing file or directory whose event would pass lies in a
      watched directory. */
  lemma PassedPathsAreWatched(fs: Fs, fn: Fnmatch, ws: seq<Watch>, mask: string, p: Path)
    requires IsTree(fs) && Named(fs) && NonNested(ws)
    requires forall i :: 0 <= i < |ws| ==> SubtreePatterns(fn, ws[i].ignore)
    requires p in fs.dirs || p in fs.files
    requires Verdict(fn, SortByDepth(ws), mask, p).Some? && Verdict(fn, SortByDepth(ws), mask, p).value.watchRoot != p
    requires Verdict(fn, SortByDepth(ws), mask, p).value.watchRoot in fs.dirs
    ensures p != [] && Parent(p) in Bookkeeping(fs, fn, ws)
  {
    SortedScan(ws, p);
    var w := FirstOwner(SortByDepth(ws), p).value;
    var i :| 0 <= i < |ws| && ws[i] == w;
    PruningIsFiltering(fs, fn, w);
    assert w.path <= Parent(p);
    if Ignored(fn, w, Parent(p)) {
      IgnoredBelow(fn, w, Parent(p), p);
    }
    WatchedFrom(fs, fn, ws, Parent(p));
  }
}
