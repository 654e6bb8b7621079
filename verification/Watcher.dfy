/** Recursive watching of directories: the startup of `watcher.py`, its preflight count, and the
    rescan of a new directory, on a file system that holds still. */
module Watcher {
  import opened Prelude
  import opened Strings
  import opened Globs
  import opened Ownership

  datatype Fs = Fs(dirs: set<Path>, files: set<Path>)

  function Parent(p: Path): Path
    requires p != []
  {
    p[..|p| - 1]
  }

  /** Everything but "/" has a parent directory. */
  ghost predicate IsTree(fs: Fs) {
    && fs.dirs !! fs.files
    && (forall d :: d in fs.dirs && d != [] ==> Parent(d) in fs.dirs)
    && (forall f :: f in fs.files ==> f != [] && Parent(f) in fs.dirs)
  }

  /** `_is_ignored`: the ignore patterns apply to the path below the root of the watch. */
  ghost predicate Ignored(fn: Fnmatch, w: Watch, p: Path) {
    w.path <= p && MatchesSome(fn, p[|w.path|..], w.ignore)
  }

  method IsIgnored(fn: Fnmatch, w: Watch, p: Path) returns (r: bool)
    ensures r <==> Ignored(fn, w, p)
    ensures r <==> w.path <= p && exists k :: 0 <= k < |w.ignore| && Matches(fn, Split(w.ignore[k]), p[|w.path|..])
  {
    if !(w.path <= p) {
      return false;
    }
    r := MatchesAnyGlob(fn, p[|w.path|..], w.ignore);
  }

  /** `scandir`, directories only. */
  function Kids(fs: Fs, d: Path): set<Path> {
    set c | c in fs.dirs && |c| == |d| + 1 && d <= c
  }

  function FilesIn(fs: Fs, d: Path): set<Path> {
    set f | f in fs.files && |f| == |d| + 1 && d <= f
  }

  // ---------------------------------------------------------------- what is watched

  /** Directory d is reached from `path` through directories that are new and not ignored; the root of
      the watch itself is exempt from its patterns. */
  ghost predicate Reached(fs: Fs, fn: Fnmatch, known: set<Path>, w: Watch, path: Path, d: Path) {
    && path <= d
    && forall n {:trigger Passable(fs, fn, known, w, d, n)} :: |path| <= n <= |d| ==> Passable(fs, fn, known, w, d, n)
  }

  ghost predicate Passable(fs: Fs, fn: Fnmatch, known: set<Path>, w: Watch, d: Path, n: nat)
    requires n <= |d|
  {
    d[..n] in fs.dirs && d[..n] !in known && (d[..n] == w.path || !Ignored(fn, w, d[..n]))
  }

  ghost function NewWatches(fs: Fs, fn: Fnmatch, known: set<Path>, w: Watch, path: Path): set<Path> {
    set d | d in fs.dirs && Reached(fs, fn, known, w, path, d)
  }

  /** The directories the watch should cover. */
  ghost function Watchable(fs: Fs, fn: Fnmatch, w: Watch): set<Path> {
    NewWatches(fs, fn, {}, w, w.path)
  }

  lemma ReachedSteps(fs: Fs, fn: Fnmatch, known: set<Path>, w: Watch, path: Path, d: Path)
    ensures Reached(fs, fn, known, w, path, d) <==>
      && path <= d && Passable(fs, fn, known, w, d, |path|)
      && (d == path || Reached(fs, fn, known, w, d[..|path| + 1], d))
  {
  }

  lemma ReachedPrefix(fs: Fs, fn: Fnmatch, known: set<Path>, w: Watch, path: Path, d: Path, n: nat)
    requires Reached(fs, fn, known, w, path, d) && |path| <= n <= |d|
    ensures Reached(fs, fn, known, w, path, d[..n]) && d[..n] in fs.dirs
  {
    assert Passable(fs, fn, known, w, d, n);
    forall m | |path| <= m <= n ensures Passable(fs, fn, known, w, d[..n], m) {
      assert Passable(fs, fn, known, w, d, m) && d[..n][..m] == d[..m];
    }
  }

  /** Paths outside the subtree do not matter. */
  lemma ReachedElsewhere(fs: Fs, fn: Fnmatch, known: set<Path>, more: set<Path>, w: Watch, path: Path, d: Path)
    requires known <= more && forall p :: p in more && p !in known ==> !(path <= p)
    ensures Reached(fs, fn, known, w, path, d) <==> Reached(fs, fn, more, w, path, d)
  {
    if path <= d {
      forall n | |path| <= n <= |d|
        ensures Passable(fs, fn, known, w, d, n) <==> Passable(fs, fn, more, w, d, n)
      {
        assert path <= d[..n];
      }
    }
  }

  // ---------------------------------------------------------------- the preflight count

  /** The pruning of `dirs[:]`. */
  method Unignored(fn: Fnmatch, w: Watch, dirs: seq<Path>) returns (kept: seq<Path>)
    requires forall i, j :: 0 <= i < j < |dirs| ==> dirs[i] != dirs[j]
    ensures forall c :: c in kept <==> c in dirs && !Ignored(fn, w, c)
    ensures forall i, j :: 0 <= i < j < |kept| ==> kept[i] != kept[j]
  {
    kept := [];
    var k := 0;
    while k < |dirs|
      invariant 0 <= k <= |dirs|
      invariant forall c :: c in kept <==> c in dirs[..k] && !Ignored(fn, w, c)
      invariant forall i, j :: 0 <= i < j < |kept| ==> kept[i] != kept[j]
    {
      var ignored := IsIgnored(fn, w, dirs[k]);
      assert dirs[k] !in dirs[..k];
      if !ignored {
        kept := kept + [dirs[k]];
      }
      k := k + 1;
    }
    assert dirs[..k] == dirs;
  }

  /** `_count_watchable_dirs`: a walk from the top that drops ignored children before going on. */
  method CountWatchableDirs(fs: Fs, fn: Fnmatch, w: Watch) returns (count: nat)
    ensures count == |Watchable(fs, fn, w)|
  {
    ghost var all := Watchable(fs, fn, w);
    if w.path !in fs.dirs {
      forall d ensures d !in all {
        ReachedSteps(fs, fn, {}, w, w.path, d);
        assert w.path <= d ==> d[..|w.path|] == w.path;
      }
      assert all == {};
      return 0;
    }
    count := 0;
    var todo := [w.path];
    ghost var visited: set<Path> := {};
    assert w.path[..|w.path|] == w.path;
    ReachedSteps(fs, fn, {}, w, w.path, w.path);
    assert forall d :: d in all ==> todo[0] <= d;
    while todo != []
      invariant count == |visited|
      invariant WalkOk(all, visited, todo)
      decreases all - visited
    {
      var current := todo[0];
      var dirs := ListOf(Kids(fs, current));
      var kept := Unignored(fn, w, dirs);
      WalkStep(fs, fn, w, all, visited, todo, kept);
      count := count + 1;
      visited := visited + {current};
      todo := kept + todo[1..];
    }
    assert visited == all;
  }

  /** Everything is visited or below exactly one directory still to do. */
  ghost predicate WalkOk(all: set<Path>, visited: set<Path>, todo: seq<Path>) {
    && visited <= all
    && (forall i :: 0 <= i < |todo| ==> todo[i] in all)
    && (forall i, v :: 0 <= i < |todo| && v in visited ==> !(todo[i] <= v))
    && (forall i, j :: 0 <= i < |todo| && 0 <= j < |todo| && i != j ==> !(todo[i] <= todo[j]))
    && (forall d :: d in all && d !in visited ==> BelowSome(todo, d))
  }

  ghost predicate BelowSome(todo: seq<Path>, d: Path) {
    exists i :: 0 <= i < |todo| && todo[i] <= d
  }

  lemma WalkStep(fs: Fs, fn: Fnmatch, w: Watch, all: set<Path>, visited: set<Path>, todo: seq<Path>, kept: seq<Path>)
    requires all == Watchable(fs, fn, w) && WalkOk(all, visited, todo) && todo != []
    requires forall c :: c in kept <==> c in Kids(fs, todo[0]) && !Ignored(fn, w, c)
    requires forall i, j :: 0 <= i < j < |kept| ==> kept[i] != kept[j]
    ensures todo[0] !in visited && WalkOk(all, visited + {todo[0]}, kept + todo[1..])
  {
    var current, more := todo[0], kept + todo[1..];
    assert todo[0] <= todo[0];
    forall c | c in kept ensures c in all {
      ReachedExtends(fs, fn, w, current, c);
    }
    forall d | d in all && d !in visited + {current} ensures BelowSome(more, d) {
      StillToDo(fs, fn, w, todo, kept, d);
    }
    forall i, v | 0 <= i < |more| && v in visited + {current} ensures !(more[i] <= v) {
      if i < |kept| {
        assert more[i] in kept;
        PrefixOfPrefix(current, more[i], v);
      } else {
        assert more[i] == todo[i - |kept| + 1];
      }
    }
    forall i, j | 0 <= i < |more| && 0 <= j < |more| && i != j ensures !(more[i] <= more[j]) {
      NoOverlap(todo, kept, i, j);
    }
  }

  lemma StillToDo(fs: Fs, fn: Fnmatch, w: Watch, todo: seq<Path>, kept: seq<Path>, d: Path)
    requires todo != [] && d in Watchable(fs, fn, w) && todo[0] in Watchable(fs, fn, w)
    requires d != todo[0] && BelowSome(todo, d)
    requires forall c :: c in kept <==> c in Kids(fs, todo[0]) && !Ignored(fn, w, c)
    ensures BelowSome(kept + todo[1..], d)
  {
    var more := kept + todo[1..];
    var i :| 0 <= i < |todo| && todo[i] <= d;
    if i == 0 {
      NextOnPath(fs, fn, w, todo[0], d);
      var j :| 0 <= j < |kept| && kept[j] == d[..|todo[0]| + 1];
      assert more[j] <= d;
    } else {
      assert more[|kept| + i - 1] <= d;
    }
  }

  lemma PrefixOfPrefix(a: Path, b: Path, c: Path)
    ensures a <= b && b <= c ==> a <= c
  {
  }

  lemma PrefixesCompare(a: Path, b: Path, c: Path)
    ensures a <= c && b <= c && |a| <= |b| ==> a <= b
    ensures a <= c && b <= c && |a| == |b| ==> a == b
  {
  }

  lemma NoOverlap(todo: seq<Path>, kept: seq<Path>, i: nat, j: nat)
    requires todo != [] && i < |kept + todo[1..]| && j < |kept + todo[1..]| && i != j
    requires forall c :: c in kept ==> |c| == |todo[0]| + 1 && todo[0] <= c
    requires forall i, j :: 0 <= i < j < |kept| ==> kept[i] != kept[j]
    requires forall i, j :: 0 <= i < |todo| && 0 <= j < |todo| && i != j ==> !(todo[i] <= todo[j])
    ensures !((kept + todo[1..])[i] <= (kept + todo[1..])[j])
  {
  }

  lemma ReachedExtends(fs: Fs, fn: Fnmatch, w: Watch, d: Path, c: Path)
    requires d in Watchable(fs, fn, w) && c in Kids(fs, d) && !Ignored(fn, w, c)
    ensures c in Watchable(fs, fn, w)
  {
    forall n | |w.path| <= n <= |c| ensures Passable(fs, fn, {}, w, c, n) {
      if n <= |d| {
        assert Passable(fs, fn, {}, w, d, n) && c[..n] == d[..n];
      } else {
        assert c[..n] == c;
      }
    }
  }

  lemma NextOnPath(fs: Fs, fn: Fnmatch, w: Watch, d: Path, e: Path)
    requires d in Watchable(fs, fn, w) && e in Watchable(fs, fn, w) && d <= e && d != e
    ensures e[..|d| + 1] in Kids(fs, d) && !Ignored(fn, w, e[..|d| + 1])
  {
    assert w.path <= d;
    assert Passable(fs, fn, {}, w, e, |d| + 1);
  }

  // ---------------------------------------------------------------- the watcher's bookkeeping

  datatype Emission = Emission(mask: string, path: Path, root: Path)

  /** An event as the kernel hands it over: the bits set in its mask, the watched directory, and the
      path of the entry concerned, if it names one. */
  datatype RawEvent = RawEvent(bits: set<string>, watchDir: Option<Path>, fullPath: Option<Path>)

  /** `_mask_to_name`: the most specific of the four names that is set. */
  function MaskName(bits: set<string>): (r: Option<string>)
    ensures r.None? <==> bits !! {"IN_MOVED_TO", "IN_CLOSE_WRITE", "IN_DELETE", "IN_MOVED_FROM"}
    ensures r.Some? ==> r.value in bits && r.value in {"IN_MOVED_TO", "IN_CLOSE_WRITE", "IN_DELETE", "IN_MOVED_FROM"}
    ensures "IN_MOVED_TO" in bits ==> r == Some("IN_MOVED_TO")
    ensures "IN_CLOSE_WRITE" in bits ==> r == Some("IN_MOVED_TO") || r == Some("IN_CLOSE_WRITE")
    ensures "IN_DELETE" in bits ==> r != Some("IN_MOVED_FROM")
  {
    if "IN_MOVED_TO" in bits then Some("IN_MOVED_TO")
    else if "IN_CLOSE_WRITE" in bits then Some("IN_CLOSE_WRITE")
    else if "IN_DELETE" in bits then Some("IN_DELETE")
    else if "IN_MOVED_FROM" in bits then Some("IN_MOVED_FROM")
    else None
  }

  /** An event names an entry of the watched directory, or the directory itself. */
  predicate NamesEntryOrSelf(watchDir: Path, path: Path) {
    path == watchDir || (path != [] && Parent(path) == watchDir)
  }

  predicate WatchGone(bits: set<string>) {
    "IN_IGNORED" in bits || "IN_DELETE_SELF" in bits || "IN_MOVE_SELF" in bits
  }

  /** The event that makes the watcher look at a new directory, in a directory it watches. */
  predicate NewDirectory(m: map<Path, Watch>, e: RawEvent) {
    && "IN_Q_OVERFLOW" !in e.bits && !WatchGone(e.bits) && "IN_ISDIR" in e.bits && "IN_CREATE" in e.bits
    && e.fullPath.Some? && e.watchDir.Some? && e.watchDir.value in m
  }

  /** What an event yields downstream: a named event about a file in a watched directory. */
  function Reportable(m: map<Path, Watch>, e: RawEvent): Option<Emission> {
    if || "IN_Q_OVERFLOW" in e.bits || WatchGone(e.bits) || "IN_ISDIR" in e.bits
       || e.fullPath.None? || e.watchDir.None? || e.watchDir.value !in m || MaskName(e.bits).None? then None
    else Some(Emission(MaskName(e.bits).value, e.fullPath.value, m[e.watchDir.value].path))
  }

  ghost function WithWatches(m: map<Path, Watch>, ds: set<Path>, w: Watch): map<Path, Watch> {
    m + map d | d in ds :: w
  }

  ghost function RootsOf(m: map<Path, Watch>): map<Path, Path> {
    map d | d in m :: m[d].path
  }

  lemma WithTwice(m: map<Path, Watch>, a: set<Path>, b: set<Path>, w: Watch)
    ensures WithWatches(WithWatches(m, a, w), b, w) == WithWatches(m, a + b, w)
    ensures WithWatches(m, a, w).Keys == m.Keys + a
  {
  }

  lemma MoreWatches(m: map<Path, Watch>, a: set<Path>, b: set<Path>, w: Watch)
    requires a <= b
    ensures |WithWatches(m, a, w)| <= |WithWatches(m, b, w)|
    ensures a == {} ==> WithWatches(m, a, w) == m
  {
    SubsetSize(WithWatches(m, a, w).Keys, WithWatches(m, b, w).Keys);
  }

  lemma OneMoreWatch(fs: Fs, fn: Fnmatch, m: map<Path, Watch>, w: Watch, path: Path)
    requires path in fs.dirs && path !in m && (path == w.path || !Ignored(fn, w, path))
    ensures |WithWatches(m, {path}, w)| == |m| + 1 <= |WithWatches(m, NewWatches(fs, fn, m.Keys, w, path), w)|
    ensures WithWatches(m, {path}, w).Keys == m.Keys + {path}
  {
    assert path[..|path|] == path && Passable(fs, fn, m.Keys, w, path, |path|);
    assert WithWatches(m, {path}, w).Keys == m.Keys + {path};
    MoreWatches(m, {path}, NewWatches(fs, fn, m.Keys, w, path), w);
  }

  lemma SameSize(m: map<Path, Watch>)
    ensures |RootsOf(m)| == |m|
  {
    assert RootsOf(m).Keys == m.Keys;
  }

  /** All wanted watches are there, or as many as there is room for, and that is not enough. */
  ghost predicate Fits(ok: bool, m: map<Path, Watch>, wanted: map<Path, Watch>, room: nat) {
    if ok then m == wanted && |wanted| <= room else |m| == room < |wanted|
  }

  /** The directories reached below the first k of a list of siblings. */
  ghost function NewBelow(fs: Fs, fn: Fnmatch, known: set<Path>, w: Watch, kids: seq<Path>, k: nat): set<Path>
    requires k <= |kids|
  {
    set d | d in fs.dirs && ReachedFromSome(fs, fn, known, w, kids[..k], d)
  }

  ghost predicate ReachedFromSome(fs: Fs, fn: Fnmatch, known: set<Path>, w: Watch, kids: seq<Path>, d: Path) {
    exists i :: 0 <= i < |kids| && Reached(fs, fn, known, w, kids[i], d)
  }

  lemma BelowGrows(fs: Fs, fn: Fnmatch, known: set<Path>, w: Watch, kids: seq<Path>, k: nat)
    requires k <= |kids|
    ensures NewBelow(fs, fn, known, w, kids, k) <= NewBelow(fs, fn, known, w, kids, |kids|)
  {
    forall d | ReachedFromSome(fs, fn, known, w, kids[..k], d)
      ensures ReachedFromSome(fs, fn, known, w, kids[..|kids|], d)
    {
      var i :| 0 <= i < k && Reached(fs, fn, known, w, kids[..k][i], d);
      assert kids[..|kids|][i] == kids[..k][i];
    }
  }

  ghost predicate Siblings(path: Path, kids: seq<Path>) {
    && (forall i :: 0 <= i < |kids| ==> |kids[i]| == |path| + 1 && path <= kids[i])
    && (forall i, j :: 0 <= i < j < |kids| ==> kids[i] != kids[j])
  }

  lemma OneMoreStart(fs: Fs, fn: Fnmatch, known: set<Path>, w: Watch, kids: seq<Path>, k: nat, d: Path)
    requires k < |kids|
    ensures ReachedFromSome(fs, fn, known, w, kids[..k + 1], d)
       <==> ReachedFromSome(fs, fn, known, w, kids[..k], d) || Reached(fs, fn, known, w, kids[k], d)
  {
  }

  /** Watching one more sibling's subtree, after the directory itself and the siblings before. */
  lemma OneMoreSibling(fs: Fs, fn: Fnmatch, known: set<Path>, w: Watch, path: Path, kids: seq<Path>, k: nat)
    requires k < |kids| && Siblings(path, kids)
    ensures var now := known + {path} + NewBelow(fs, fn, known, w, kids, k);
      && NewWatches(fs, fn, now, w, kids[k]) == NewWatches(fs, fn, known, w, kids[k])
      && NewBelow(fs, fn, known, w, kids, k + 1)
         == NewBelow(fs, fn, known, w, kids, k) + NewWatches(fs, fn, known, w, kids[k])
  {
    var now := known + {path} + NewBelow(fs, fn, known, w, kids, k);
    forall p | p in now && p !in known ensures !(kids[k] <= p) {
      if p != path {
        var i :| 0 <= i < k && Reached(fs, fn, known, w, kids[..k][i], p);
        PrefixesCompare(kids[i], kids[k], p);
      }
    }
    forall d ensures Reached(fs, fn, known, w, kids[k], d) <==> Reached(fs, fn, now, w, kids[k], d) {
      ReachedElsewhere(fs, fn, known, now, w, kids[k], d);
    }
    forall d {
      OneMoreStart(fs, fn, known, w, kids, k, d);
    }
  }

  /** A new, watched directory and its children's subtrees make its subtree. */
  lemma SubtreeIsRootAndSiblings(fs: Fs, fn: Fnmatch, known: set<Path>, w: Watch, path: Path, kids: seq<Path>)
    requires path in fs.dirs && path !in known && (path == w.path || !Ignored(fn, w, path))
    requires Siblings(path, kids) && forall c :: c in Kids(fs, path) ==> c in kids
    ensures NewWatches(fs, fn, known, w, path) == {path} + NewBelow(fs, fn, known, w, kids, |kids|)
  {
    assert kids[..|kids|] == kids;
    assert Passable(fs, fn, known, w, path, |path|) by {
      assert path[..|path|] == path;
    }
    forall d | d in fs.dirs
      ensures Reached(fs, fn, known, w, path, d) <==> d == path || ReachedFromSome(fs, fn, known, w, kids, d)
    {
      ReachedSteps(fs, fn, known, w, path, d);
      if Reached(fs, fn, known, w, path, d) && d != path {
        ReachedPrefix(fs, fn, known, w, path, d, |path| + 1);
        assert d[..|path| + 1] in Kids(fs, path);
        var i :| 0 <= i < |kids| && kids[i] == d[..|path| + 1];
      }
      if i :| 0 <= i < |kids| && Reached(fs, fn, known, w, kids[i], d) {
        PrefixOfPrefix(path, kids[i], d);
        assert d[..|path|] == path && d[..|path| + 1] == kids[i];
        assert Passable(fs, fn, known, w, d, |path|);
      }
    }
  }

  /** Both, as the bookkeeping sees it. */
  lemma DirectoryThenEntries(fs: Fs, fn: Fnmatch, m: map<Path, Watch>, w: Watch, path: Path, entries: seq<Path>)
    requires path in fs.dirs && path !in m && (path == w.path || !Ignored(fn, w, path))
    requires Siblings(path, entries) && forall c :: c in Kids(fs, path) ==> c in entries
    ensures var below := NewBelow(fs, fn, m.Keys, w, entries, |entries|);
      WithWatches(WithWatches(m, {path}, w), below, w) == WithWatches(m, NewWatches(fs, fn, m.Keys, w, path), w)
  {
    SubtreeIsRootAndSiblings(fs, fn, m.Keys, w, path, entries);
    WithTwice(m, {path}, NewBelow(fs, fn, m.Keys, w, entries, |entries|), w);
  }

  /** And as the announcements see it. */
  lemma FilesThenEntries(fs: Fs, fn: Fnmatch, known: set<Path>, w: Watch, path: Path, entries: seq<Path>, f: Path)
    requires path in fs.dirs && path !in known && (path == w.path || !Ignored(fn, w, path)) && IsTree(fs)
    requires Siblings(path, entries) && forall c :: c in entries <==> c in Kids(fs, path) + FilesIn(fs, path)
    ensures var below := NewBelow(fs, fn, known, w, entries, |entries|);
      ToAnnounce(fs, fn, w, NewWatches(fs, fn, known, w, path), f) <==>
        (f in entries && f in fs.files && !Ignored(fn, w, f)) || ToAnnounce(fs, fn, w, below, f)
  {
    SubtreeIsRootAndSiblings(fs, fn, known, w, path, entries);
    assert f in fs.files ==> (f in entries <==> f in FilesIn(fs, path));
    assert f in fs.files ==> (Parent(f) == path <==> f in FilesIn(fs, path));
  }

  lemma NothingNew(fs: Fs, fn: Fnmatch, known: set<Path>, w: Watch, path: Path)
    ensures path !in fs.dirs || path in known || (path != w.path && Ignored(fn, w, path)) ==>
              NewWatches(fs, fn, known, w, path) == {}
  {
    if path !in fs.dirs || path in known || (path != w.path && Ignored(fn, w, path)) {
      forall d ensures !Reached(fs, fn, known, w, path, d) {
        ReachedSteps(fs, fn, known, w, path, d);
        assert path <= d ==> d[..|path|] == path;
      }
    }
  }

  function Subtree(fs: Fs, path: Path): set<Path> {
    set d | d in fs.dirs && path <= d
  }

  lemma SubtreeShrinks(fs: Fs, path: Path, kid: Path)
    requires path in fs.dirs && path <= kid && path != kid
    ensures |Subtree(fs, kid)| < |Subtree(fs, path)|
  {
    forall d | d in Subtree(fs, kid) ensures d in Subtree(fs, path) - {path} {
      PrefixOfPrefix(path, kid, d);
    }
    SubsetSize(Subtree(fs, kid), Subtree(fs, path) - {path});
  }

  /** The files announced by the rescan of a new directory. */
  ghost predicate Announced(es: seq<Emission>, f: Path) {
    exists i :: 0 <= i < |es| && es[i].path == f
  }

  ghost predicate ToAnnounce(fs: Fs, fn: Fnmatch, w: Watch, ds: set<Path>, f: Path) {
    f in fs.files && f != [] && Parent(f) in ds && !Ignored(fn, w, f)
  }

  class InotifyWatcher {
    var dirToRoot: map<Path, Path>
    var dirToConfig: map<Path, Watch>
    var synthetic: seq<Emission>

    ghost predicate Valid()
      reads this
    {
      dirToRoot == RootsOf(dirToConfig)
    }

    constructor ()
      ensures Valid() && dirToConfig == map[] && synthetic == []
    {
      dirToRoot, dirToConfig, synthetic := map[], map[], [];
    }

    /** `add_watch` and its entry in the dictionaries. */
    method StartWatching(path: Path, wc: Watch)
      requires Valid()
      modifies `dirToRoot, `dirToConfig
      ensures Valid() && dirToConfig == WithWatches(old(dirToConfig), {path}, wc)
    {
      dirToRoot := dirToRoot[path := wc.path];
      dirToConfig := dirToConfig[path := wc];
    }

    /** `_add_recursive`: the new, unignored directories of the subtree are watched, or the kernel has no
        room for them and the error for that comes out of the first `add_watch` too many. */
    method AddRecursive(fs: Fs, fn: Fnmatch, path: Path, wc: Watch, room: nat) returns (ok: bool)
      requires Valid() && |dirToConfig| <= room
      modifies `dirToRoot, `dirToConfig
      ensures Valid()
      ensures Fits(ok, dirToConfig,
                   WithWatches(old(dirToConfig), NewWatches(fs, fn, old(dirToConfig).Keys, wc, path), wc), room)
      decreases |Subtree(fs, path)|, 1
    {
      ghost var before := dirToConfig;
      var ignored := IsIgnored(fn, wc, path);
      NothingNew(fs, fn, before.Keys, wc, path);
      if path !in fs.dirs || (path != wc.path && ignored) || path in dirToRoot {
        return true;
      }
      var entries := ListOf(Kids(fs, path));
      AreSiblings(fs, path, entries);
      OneMoreWatch(fs, fn, before, wc, path);
      if |dirToConfig| == room {
        return false;
      }
      StartWatching(path, wc);
      DirectoryThenEntries(fs, fn, before, wc, path, entries);
      ok := AddEntries(fs, fn, path, entries, wc, before.Keys, room);
    }

    /** Its loop over the entries of a directory that is watched by now. */
    method AddEntries(fs: Fs, fn: Fnmatch, path: Path, entries: seq<Path>, wc: Watch, ghost known: set<Path>, room: nat)
        returns (ok: bool)
      requires Valid() && path in fs.dirs && Siblings(path, entries) && dirToConfig.Keys == known + {path}
      requires |dirToConfig| <= room
      modifies `dirToRoot, `dirToConfig
      ensures Valid()
      ensures Fits(ok, dirToConfig,
                   WithWatches(old(dirToConfig), NewBelow(fs, fn, known, wc, entries, |entries|), wc), room)
      decreases |Subtree(fs, path)|, 0
    {
      ghost var before, below := dirToConfig, {};
      var k := 0;
      while k < |entries|
        invariant 0 <= k <= |entries| && Valid()
        invariant below == NewBelow(fs, fn, known, wc, entries, k)
        invariant dirToConfig == WithWatches(before, below, wc) && |dirToConfig| <= room
      {
        SubtreeShrinks(fs, path, entries[k]);
        OneMoreSibling(fs, fn, known, wc, path, entries, k);
        BelowGrows(fs, fn, known, wc, entries, k + 1);
        ghost var more := NewWatches(fs, fn, known, wc, entries[k]);
        WithTwice(before, below, more, wc);
        MoreWatches(before, below + more, NewBelow(fs, fn, known, wc, entries, |entries|), wc);
        ok := AddRecursive(fs, fn, entries[k], wc, room);
        if !ok {
          return;
        }
        below := below + more;
        k := k + 1;
      }
      ok := true;
    }

    /** `_add_dir_and_scan` while nothing else happens: watches as above, and every unignored file in a
        newly watched directory is announced, once, and nothing else. */
    method AddDirAndScan(fs: Fs, fn: Fnmatch, path: Path, wc: Watch)
      requires Valid() && IsTree(fs) && wc.path <= path && (wc.path == path ==> path in dirToConfig)
      modifies this
      ensures Valid()
      ensures dirToConfig == WithWatches(old(dirToConfig), RescanWatches(fs, fn, old(dirToConfig).Keys, wc, path), wc)
      ensures old(synthetic) <= synthetic
      ensures IsRescan(fs, fn, wc, RescanWatches(fs, fn, old(dirToConfig).Keys, wc, path),
                       synthetic[|old(synthetic)|..])
      ensures path in fs.files && path !in old(dirToConfig) && !Ignored(fn, wc, path) ==>
        dirToConfig == old(dirToConfig)[path := wc] && synthetic == old(synthetic)
      decreases |Subtree(fs, path)|, 2
    {
      ghost var before, queued := dirToConfig, synthetic;
      assert synthetic[|queued|..] == [];
      var ignored := IsIgnored(fn, wc, path);
      NothingNew(fs, fn, before.Keys, wc, path);
      if ignored || path in dirToRoot || (path !in fs.dirs && path !in fs.files) {
        return;
      }
      StartWatching(path, wc);
      if path !in fs.dirs {
        return;
      }
      var entries := ListOf(Kids(fs, path) + FilesIn(fs, path));
      AreSiblings(fs, path, entries);
      DirectoryThenEntries(fs, fn, before, wc, path, entries);
      ScanEntries(fs, fn, path, entries, wc, before.Keys);
      forall f {
        FilesThenEntries(fs, fn, before.Keys, wc, path, entries, f);
      }
    }

    /** Its loop over the entries. */
    method ScanEntries(fs: Fs, fn: Fnmatch, path: Path, entries: seq<Path>, wc: Watch, ghost known: set<Path>)
      requires Valid() && IsTree(fs) && path in fs.dirs && wc.path <= path
      requires Siblings(path, entries) && dirToConfig.Keys == known + {path}
      requires forall c :: c in entries ==> c in fs.dirs || c in fs.files
      modifies this
      ensures Valid()
      ensures dirToConfig == WithWatches(old(dirToConfig), NewBelow(fs, fn, known, wc, entries, |entries|), wc)
      ensures old(synthetic) <= synthetic
      ensures FromWatch(synthetic[|old(synthetic)|..], wc) && OnceEach(synthetic[|old(synthetic)|..])
      ensures ScannedSoFar(fs, fn, wc, entries, NewBelow(fs, fn, known, wc, entries, |entries|),
                           synthetic[|old(synthetic)|..])
      decreases |Subtree(fs, path)|, 1
    {
      ghost var before, queued, below := dirToConfig, synthetic, {};
      assert synthetic[|queued|..] == [] && entries[..0] == [];
      var k := 0;
      while k < |entries|
        invariant 0 <= k <= |entries| && Valid() && queued <= synthetic
        invariant FromWatch(synthetic[|queued|..], wc) && OnceEach(synthetic[|queued|..])
        invariant below == NewBelow(fs, fn, known, wc, entries, k)
        invariant dirToConfig == WithWatches(before, below, wc)
        invariant ScannedSoFar(fs, fn, wc, entries[..k], below, synthetic[|queued|..])
      {
        OneMoreSibling(fs, fn, known, wc, path, entries, k);
        ghost var was, more := synthetic, NewWatches(fs, fn, known, wc, entries[k]);
        WithTwice(before, below, more, wc);
        ScanEntry(fs, fn, path, entries[k], wc);
        AnnouncementsJoin(queued, was, synthetic, wc);
        forall f ensures Announced(was[|queued|..], f) ==> !Announced(synthetic[|was|..], f) {
          EntriesApart(fs, fn, known, wc, path, entries, k, was[|queued|..], synthetic[|was|..], f);
        }
        OnceEachJoins(queued, was, synthetic);
        ScannedOneMore(fs, fn, wc, entries, k, below, more, was[|queued|..], synthetic[|was|..], synthetic[|queued|..]);
        below := below + more;
        k := k + 1;
      }
      assert entries[..k] == entries;
    }

    /** One entry: a directory is added and scanned, a file announced unless it is ignored. */
    method ScanEntry(fs: Fs, fn: Fnmatch, path: Path, entry: Path, wc: Watch)
      requires Valid() && IsTree(fs) && path in fs.dirs && wc.path <= path && path <= entry && path != entry
      requires entry in fs.dirs || entry in fs.files
      modifies this
      ensures Valid()
      ensures dirToConfig == WithWatches(old(dirToConfig), NewWatches(fs, fn, old(dirToConfig).Keys, wc, entry), wc)
      ensures old(synthetic) <= synthetic
      ensures FromWatch(synthetic[|old(synthetic)|..], wc) && OnceEach(synthetic[|old(synthetic)|..])
      ensures forall f :: Announced(synthetic[|old(synthetic)|..], f) <==>
                (f == entry && f in fs.files && !Ignored(fn, wc, f))
                || ToAnnounce(fs, fn, wc, NewWatches(fs, fn, old(dirToConfig).Keys, wc, entry), f)
      decreases |Subtree(fs, path)|, 0
    {
      if entry in fs.dirs {
        SubtreeShrinks(fs, path, entry);
        AddDirAndScan(fs, fn, entry, wc);
      } else {
        NothingNew(fs, fn, dirToConfig.Keys, wc, entry);
        AnnounceUnlessIgnored(fn, entry, wc);
      }
    }

    method AnnounceUnlessIgnored(fn: Fnmatch, file: Path, wc: Watch)
      modifies `synthetic
      ensures old(synthetic) <= synthetic
      ensures FromWatch(synthetic[|old(synthetic)|..], wc) && OnceEach(synthetic[|old(synthetic)|..])
      ensures forall f :: Announced(synthetic[|old(synthetic)|..], f) <==> f == file && !Ignored(fn, wc, f)
    {
      var skip := IsIgnored(fn, wc, file);
      ghost var was := synthetic;
      if !skip {
        synthetic := synthetic + [Emission("IN_MOVED_TO", file, wc.path)];
        assert synthetic[|was|..] == [Emission("IN_MOVED_TO", file, wc.path)];
        AnnouncedOne(Emission("IN_MOVED_TO", file, wc.path));
      } else {
        assert synthetic[|was|..] == [];
      }
    }

    /** One round of `_iter`: what was announced goes first; else the next event is handled. */
    method NextItem(fs: Fs, fn: Fnmatch, e: RawEvent) returns (item: Option<Emission>, taken: bool)
      requires Valid() && IsTree(fs)
      requires forall d :: d in dirToConfig ==> dirToConfig[d].path <= d
      requires e.watchDir.Some? && e.fullPath.Some? ==> NamesEntryOrSelf(e.watchDir.value, e.fullPath.value)
      modifies this
      ensures Valid() && taken == (old(synthetic) == [])
      ensures !taken ==>
                item == Some(old(synthetic)[0]) && synthetic == old(synthetic)[1..] && dirToConfig == old(dirToConfig)
      ensures taken ==> item == Reportable(old(dirToConfig), e)
      // an item comes of a named change to a file, in a directory that is watched
      ensures taken ==>
        (item.Some? <==>
          && e.bits !! {"IN_Q_OVERFLOW", "IN_IGNORED", "IN_DELETE_SELF", "IN_MOVE_SELF", "IN_ISDIR"}
          && !(e.bits !! {"IN_MOVED_TO", "IN_CLOSE_WRITE", "IN_DELETE", "IN_MOVED_FROM"})
          && e.fullPath.Some? && e.watchDir.Some? && e.watchDir.value in old(dirToConfig))
      ensures taken && item.Some? ==>
        && item.value.path == e.fullPath.value && item.value.root == old(dirToConfig)[e.watchDir.value].path
        && Some(item.value.mask) == MaskName(e.bits)
      // a directory created in one is added and scanned
      ensures taken && NewDirectory(old(dirToConfig), e) ==>
        var w := old(dirToConfig)[e.watchDir.value];
        var ds := RescanWatches(fs, fn, old(dirToConfig).Keys, w, e.fullPath.value);
        dirToConfig == WithWatches(old(dirToConfig), ds, w) && IsRescan(fs, fn, w, ds, synthetic)
      ensures NewDirectory(old(dirToConfig), e) <==>
        && e.bits !! {"IN_Q_OVERFLOW", "IN_IGNORED", "IN_DELETE_SELF", "IN_MOVE_SELF"}
        && {"IN_ISDIR", "IN_CREATE"} <= e.bits
        && e.fullPath.Some? && e.watchDir.Some? && e.watchDir.value in old(dirToConfig)
      // a watch that is gone is forgotten; and that is all
      ensures taken && !NewDirectory(old(dirToConfig), e) ==> synthetic == []
      ensures taken && !NewDirectory(old(dirToConfig), e) ==>
        dirToConfig ==
          if "IN_Q_OVERFLOW" !in e.bits && !(e.bits !! {"IN_IGNORED", "IN_DELETE_SELF", "IN_MOVE_SELF"})
             && e.watchDir.Some?
          then old(dirToConfig) - {e.watchDir.value} else old(dirToConfig)
    {
      if synthetic != [] {
        item, taken := Some(synthetic[0]), false;
        synthetic := synthetic[1..];
        return;
      }
      item, taken := None, true;
      if "IN_Q_OVERFLOW" in e.bits || e.watchDir.None? {
        return;
      }
      var watchDir := e.watchDir.value;
      if "IN_IGNORED" in e.bits || "IN_DELETE_SELF" in e.bits || "IN_MOVE_SELF" in e.bits {
        dirToRoot := dirToRoot - {watchDir};
        dirToConfig := dirToConfig - {watchDir};
        return;
      }
      if "IN_ISDIR" in e.bits {
        if "IN_CREATE" in e.bits && e.fullPath.Some? {
          if watchDir in dirToConfig {
            ghost var before := synthetic;
            assert dirToConfig[watchDir].path <= e.fullPath.value;
            AddDirAndScan(fs, fn, e.fullPath.value, dirToConfig[watchDir]);
            assert synthetic[|before|..] == synthetic;
          }
        }
        return;
      }
      if e.fullPath.None? || watchDir !in dirToRoot {
        return;
      }
      var maskName := MaskName(e.bits);
      if maskName.None? {
        return;
      }
      item := Some(Emission(maskName.value, e.fullPath.value, dirToRoot[watchDir]));
    }
  }

  ghost predicate FromWatch(es: seq<Emission>, w: Watch) {
    forall i :: 0 <= i < |es| ==> es[i].mask == "IN_MOVED_TO" && es[i].root == w.path
  }

  /** What a rescan of `path` watches: its new subtree; or just `path`, if the directory announced has
      become a file by then, which inotify does not mind. */
  ghost function RescanWatches(fs: Fs, fn: Fnmatch, known: set<Path>, w: Watch, path: Path): set<Path> {
    if path in fs.files && path !in known && !Ignored(fn, w, path) then {path}
    else NewWatches(fs, fn, known, w, path)
  }

  /** No file is announced twice. */
  ghost predicate OnceEach(es: seq<Emission>) {
    forall i, j :: 0 <= i < j < |es| ==> es[i].path != es[j].path
  }

  /** A rescan that found `ds` announces, as moved into place and once each, the unignored files in them. */
  ghost predicate IsRescan(fs: Fs, fn: Fnmatch, w: Watch, ds: set<Path>, es: seq<Emission>) {
    FromWatch(es, w) && OnceEach(es) && forall f :: Announced(es, f) <==> ToAnnounce(fs, fn, w, ds, f)
  }

  /** Announced so far: the unignored files among the entries, and those in the directories below. */
  ghost predicate ScannedSoFar(fs: Fs, fn: Fnmatch, w: Watch, entries: seq<Path>, below: set<Path>, es: seq<Emission>) {
    forall f :: Announced(es, f) <==>
      (f in entries && f in fs.files && !Ignored(fn, w, f)) || ToAnnounce(fs, fn, w, below, f)
  }

  lemma ScannedOneMore(fs: Fs, fn: Fnmatch, w: Watch, entries: seq<Path>, k: nat, below: set<Path>, more: set<Path>,
                       es: seq<Emission>, more_es: seq<Emission>, all: seq<Emission>)
    requires k < |entries| && ScannedSoFar(fs, fn, w, entries[..k], below, es)
    requires forall f :: Announced(more_es, f) <==>
      (f == entries[k] && f in fs.files && !Ignored(fn, w, f)) || ToAnnounce(fs, fn, w, more, f)
    requires forall f :: Announced(all, f) <==> Announced(es, f) || Announced(more_es, f)
    ensures ScannedSoFar(fs, fn, w, entries[..k + 1], below + more, all)
  {
  }

  lemma AnnouncementsJoin(queued: seq<Emission>, was: seq<Emission>, es: seq<Emission>, w: Watch)
    requires queued <= was <= es
    ensures forall f :: Announced(es[|queued|..], f) <==> Announced(was[|queued|..], f) || Announced(es[|was|..], f)
    ensures FromWatch(was[|queued|..], w) && FromWatch(es[|was|..], w) ==> FromWatch(es[|queued|..], w)
  {
  }

  lemma OnceEachJoins(queued: seq<Emission>, was: seq<Emission>, es: seq<Emission>)
    requires queued <= was <= es && OnceEach(was[|queued|..]) && OnceEach(es[|was|..])
    requires forall f :: Announced(was[|queued|..], f) ==> !Announced(es[|was|..], f)
    ensures OnceEach(es[|queued|..])
  {
    var older, newer, all := was[|queued|..], es[|was|..], es[|queued|..];
    assert all == older + newer;
    forall i, j | 0 <= i < j < |all| ensures all[i].path != all[j].path {
      if i < |older| <= j {
        assert newer[j - |older|].path == all[j].path;
        assert Announced(older, all[i].path) && Announced(newer, all[j].path);
      }
    }
  }

  /** What the entries before were announced for lies elsewhere. */
  lemma EntriesApart(fs: Fs, fn: Fnmatch, known: set<Path>, w: Watch, path: Path, entries: seq<Path>, k: nat,
                     es: seq<Emission>, more_es: seq<Emission>, f: Path)
    requires k < |entries| && Siblings(path, entries)
    requires ScannedSoFar(fs, fn, w, entries[..k], NewBelow(fs, fn, known, w, entries, k), es)
    requires forall f :: Announced(more_es, f) ==>
      f == entries[k] || ToAnnounce(fs, fn, w, NewWatches(fs, fn, known, w, entries[k]), f)
    ensures Announced(es, f) ==> !Announced(more_es, f)
  {
    if Announced(more_es, f) && f != entries[k] {
      PrefixOfPrefix(entries[k], Parent(f), f);
    }
    if Announced(es, f) {
      var i := EntryAbove(fs, fn, known, w, entries, k, es, f);
      PrefixesCompare(entries[i], entries[k], f);
      assert !(entries[k] <= f);
    }
  }

  lemma EntryAbove(fs: Fs, fn: Fnmatch, known: set<Path>, w: Watch, entries: seq<Path>, k: nat, es: seq<Emission>,
                   f: Path) returns (i: nat)
    requires k < |entries| && ScannedSoFar(fs, fn, w, entries[..k], NewBelow(fs, fn, known, w, entries, k), es)
    requires Announced(es, f)
    ensures i < k && entries[i] <= f
  {
    if f in entries[..k] {
      i :| i < k && entries[..k][i] == f;
    } else {
      i :| i < k && Reached(fs, fn, known, w, entries[..k][i], Parent(f));
      PrefixOfPrefix(entries[i], Parent(f), f);
    }
  }

  lemma AreSiblings(fs: Fs, path: Path, entries: seq<Path>)
    requires forall c :: c in entries ==> c in Kids(fs, path) + FilesIn(fs, path)
    requires forall i, j :: 0 <= i < j < |entries| ==> entries[i] != entries[j]
    ensures Siblings(path, entries)
  {
    forall i | 0 <= i < |entries| ensures |entries[i]| == |path| + 1 && path <= entries[i] {
      assert entries[i] in entries;
    }
  }

  lemma AnnouncedOne(e: Emission)
    ensures forall f :: Announced([e], f) <==> f == e.path
  {
    assert [e][0] == e;
  }

}
