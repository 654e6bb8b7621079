/** The watcher while the file system moves: directories appear and files are written at any point,
    also between `add_watch` and `scandir` of the same directory.  The recursion of
    `_add_dir_and_scan` is an agenda of tasks, taken from the front. */
module WatcherRace {
  import opened Prelude
  import opened Globs
  import opened Ownership
  import opened Watcher
  import opened WatcherStartup

  datatype Event = DirCreated(path: Path) | FileEvent(mask: string, path: Path)

  datatype Task = AddDir(path: Path, w: Watch) | Scan(path: Path, w: Watch) | Announce(path: Path, w: Watch)

  /** `watched` is at once the dictionary and what the kernel watches; `due` are the files finalised
      and not removed or reported since. */
  datatype State = State(fs: Fs, watched: map<Path, Watch>, kernel: seq<Event>, agenda: seq<Task>,
                         synthetic: seq<Emission>, due: set<Path>)

  datatype Step =
    | Mkdir(d: Path)
    | Create(f: Path)
    | Finalise(f: Path, mask: string)
    | Vanish(f: Path, mask: string)
    | Emit
    | Receive
    | Work
    | ScanDir(entries: seq<Path>)

  predicate Finalising(mask: string) {
    mask == "IN_MOVED_TO" || mask == "IN_CLOSE_WRITE"
  }

  predicate Removing(mask: string) {
    mask == "IN_DELETE" || mask == "IN_MOVED_FROM"
  }

  /** The masks `_mask_to_name` has a name for. */
  predicate Named(mask: string) {
    Finalising(mask) || Removing(mask)
  }

  predicate OfWatcher(e: Step) {
    e.Emit? || e.Receive? || e.Work? || e.ScanDir?
  }

  /** `entries` lists directory d in some order. */
  ghost predicate Lists(fs: Fs, d: Path, entries: seq<Path>) {
    IsListing(entries, Kids(fs, d) + FilesIn(fs, d))
  }

  ghost predicate Enabled(s: State, e: Step) {
    match e
    case Mkdir(d) => d != [] && Parent(d) in s.fs.dirs && d !in s.fs.dirs && d !in s.fs.files
    case Create(f) => f != [] && Parent(f) in s.fs.dirs && f !in s.fs.dirs
    case Finalise(f, mask) =>
      && Finalising(mask) && f != [] && Parent(f) in s.fs.dirs && f !in s.fs.dirs
      && (mask == "IN_CLOSE_WRITE" ==> f in s.fs.files)
    case Vanish(f, mask) => Removing(mask) && f != [] && f in s.fs.files
    case Emit => s.agenda == [] && s.synthetic != []
    case Receive => s.agenda == [] && s.synthetic == [] && s.kernel != []
    case Work => s.agenda != [] && !s.agenda[0].Scan?
    case ScanDir(entries) => s.agenda != [] && s.agenda[0].Scan? && Lists(s.fs, s.agenda[0].path, entries)
  }

  /** The kernel reports what happens in a watched directory. */
  function Notify(s: State, ev: Event): seq<Event> {
    if ev.path != [] && Parent(ev.path) in s.watched then s.kernel + [ev] else s.kernel
  }

  /** What a step of the watcher yields downstream. */
  function Yielded(s: State, e: Step): Option<Emission> {
    if e.Emit? && s.synthetic != [] then Some(s.synthetic[0])
    else if e.Receive? && s.kernel != [] && s.kernel[0].FileEvent? && s.kernel[0].path != []
         && Parent(s.kernel[0].path) in s.watched && Named(s.kernel[0].mask) then
      Some(Emission(s.kernel[0].mask, s.kernel[0].path, s.watched[Parent(s.kernel[0].path)].path))
    else None
  }

  function Reported(s: State, e: Step): set<Path> {
    match Yielded(s, e)
    case None => {}
    case Some(y) => if Finalising(y.mask) then {y.path} else {}
  }

  function TasksFor(fs: Fs, entries: seq<Path>, w: Watch): (ts: seq<Task>)
    ensures |ts| == |entries|
    ensures forall i :: 0 <= i < |ts| ==>
      ts[i] == if entries[i] in fs.dirs then AddDir(entries[i], w) else Announce(entries[i], w)
  {
    seq(|entries|, i requires 0 <= i < |entries| =>
      if entries[i] in fs.dirs then AddDir(entries[i], w) else Announce(entries[i], w))
  }

  ghost function Next(fn: Fnmatch, s: State, e: Step): State
    requires Enabled(s, e)
  {
    match e
    case Mkdir(d) => s.(fs := s.fs.(dirs := s.fs.dirs + {d}), kernel := Notify(s, DirCreated(d)))
    case Create(f) => s.(fs := s.fs.(files := s.fs.files + {f}), kernel := Notify(s, FileEvent("IN_CREATE", f)))
    case Finalise(f, mask) =>
      s.(fs := s.fs.(files := s.fs.files + {f}), kernel := Notify(s, FileEvent(mask, f)), due := s.due + {f})
    case Vanish(f, mask) =>
      s.(fs := s.fs.(files := s.fs.files - {f}), kernel := Notify(s, FileEvent(mask, f)), due := s.due - {f})
    case Emit => s.(synthetic := s.synthetic[1..], due := s.due - Reported(s, e))
    case Receive =>
      var ev := s.kernel[0];
      s.(kernel := s.kernel[1..], due := s.due - Reported(s, e),
         agenda := if ev.DirCreated? && ev.path != [] && Parent(ev.path) in s.watched then
                     [AddDir(ev.path, s.watched[Parent(ev.path)])]
                   else [])
    case Work =>
      var t := s.agenda[0];
      if Ignored(fn, t.w, t.path) || (t.AddDir? && t.path in s.watched) then s.(agenda := s.agenda[1..])
      else if t.AddDir? then
        s.(watched := s.watched[t.path := t.w], agenda := [Scan(t.path, t.w)] + s.agenda[1..])
      else s.(synthetic := s.synthetic + [Emission("IN_MOVED_TO", t.path, t.w.path)], agenda := s.agenda[1..])
    case ScanDir(entries) =>
      s.(agenda := TasksFor(s.fs, entries, s.agenda[0].w) + s.agenda[1..])
  }

  ghost predicate IsRun(fn: Fnmatch, s: State, es: seq<Step>)
    decreases |es|
  {
    es == [] || (Enabled(s, es[0]) && IsRun(fn, Next(fn, s, es[0]), es[1..]))
  }

  ghost function After(fn: Fnmatch, s: State, es: seq<Step>): State
    requires IsRun(fn, s, es)
    decreases |es|
  {
    if es == [] then s else After(fn, Next(fn, s, es[0]), es[1..])
  }

  /** When `__aenter__` returns. */
  ghost function Started(fs: Fs, fn: Fnmatch, ws: seq<Watch>): State {
    State(fs, Bookkeeping(fs, fn, ws), [], [], [], {})
  }

  ghost predicate Reachable(fs: Fs, fn: Fnmatch, ws: seq<Watch>, s: State) {
    exists es :: IsRun(fn, Started(fs, fn, ws), es) && After(fn, Started(fs, fn, ws), es) == s
  }

  // ---------------------------------------------------------------- invariant

  ghost predicate WatchOk(ws: seq<Watch>, s: State, d: Path) {
    d in s.watched ==>
      && d in s.fs.dirs && s.watched[d] in ws && s.watched[d].path <= d
      && (d == s.watched[d].path || (d != [] && Parent(d) in s.watched && s.watched[Parent(d)] == s.watched[d]))
  }

  ghost predicate InWatched(s: State, p: Path, w: Watch) {
    p != [] && Parent(p) in s.watched && s.watched[Parent(p)] == w
  }

  ghost predicate TaskOk(s: State, t: Task) {
    if t.Scan? then t.path in s.watched && s.watched[t.path] == t.w
    else InWatched(s, t.path, t.w) && (t.AddDir? ==> t.path in s.fs.dirs)
  }

  ghost predicate EventOk(s: State, ev: Event) {
    ev.path != [] && Parent(ev.path) in s.watched && (ev.DirCreated? ==> ev.path in s.fs.dirs)
  }

  /** An emission names a configured root above its path. */
  ghost predicate EmissionOk(ws: seq<Watch>, y: Emission) {
    exists w :: w in ws && y.root == w.path && w.path <= y.path && w.path != y.path
  }

  /** The frontier: an unwatched directory in a watched one is on its way to be watched. */
  ghost predicate DirOk(fn: Fnmatch, s: State, d: Path) {
    d in s.fs.dirs && d != [] && Parent(d) in s.watched && d !in s.watched ==>
      var w := s.watched[Parent(d)];
      || Ignored(fn, w, d)
      || DirCreated(d) in s.kernel || AddDir(d, w) in s.agenda || Scan(Parent(d), w) in s.agenda
  }

  /** A file due in a watched directory is on its way to be reported. */
  ghost predicate FileOk(fn: Fnmatch, s: State, f: Path) {
    f in s.due ==>
      && f != [] && f in s.fs.files
      && (Parent(f) in s.watched ==>
          var w := s.watched[Parent(f)];
          || Ignored(fn, w, f)
          || Emission("IN_MOVED_TO", f, w.path) in s.synthetic
          || FileEvent("IN_MOVED_TO", f) in s.kernel || FileEvent("IN_CLOSE_WRITE", f) in s.kernel
          || Announce(f, w) in s.agenda || Scan(Parent(f), w) in s.agenda)
  }

  ghost predicate Inv(fn: Fnmatch, ws: seq<Watch>, s: State) {
    && IsTree(s.fs)
    && (forall d {:trigger WatchOk(ws, s, d)} :: WatchOk(ws, s, d))
    && (forall i {:trigger TaskOk(s, s.agenda[i])} :: 0 <= i < |s.agenda| ==> TaskOk(s, s.agenda[i]))
    && (forall i {:trigger EventOk(s, s.kernel[i])} :: 0 <= i < |s.kernel| ==> EventOk(s, s.kernel[i]))
    && (forall y {:trigger EmissionOk(ws, y)} :: y in s.synthetic ==> EmissionOk(ws, y))
    && (forall d {:trigger DirOk(fn, s, d)} :: DirOk(fn, s, d))
    && (forall f {:trigger FileOk(fn, s, f)} :: FileOk(fn, s, f))
  }

  lemma InHeadOrTail<T>(q: seq<T>, x: T)
    ensures q != [] && x in q ==> x == q[0] || x in q[1..]
  {
  }

  lemma StepKeepsTree(fn: Fnmatch, s: State, e: Step)
    requires Enabled(s, e) && IsTree(s.fs)
    ensures IsTree(Next(fn, s, e).fs)
  {
  }

  /** Directories and watches only grow, and a watched directory keeps its watch. */
  lemma Grows(fn: Fnmatch, s: State, e: Step)
    requires Enabled(s, e)
    ensures s.fs.dirs <= Next(fn, s, e).fs.dirs
    ensures forall d :: d in s.watched ==> d in Next(fn, s, e).watched && Next(fn, s, e).watched[d] == s.watched[d]
  {
  }

  lemma StepKeepsWatchOk(fn: Fnmatch, ws: seq<Watch>, s: State, e: Step, d: Path)
    requires Enabled(s, e) && Inv(fn, ws, s)
    ensures WatchOk(ws, Next(fn, s, e), d)
  {
    assert WatchOk(ws, s, d);
    if e.Work? {
      var t := s.agenda[0];
      assert TaskOk(s, s.agenda[0]);
      assert WatchOk(ws, s, Parent(t.path));
    }
  }

  lemma TaskOkGrows(fn: Fnmatch, s: State, e: Step, t: Task)
    requires Enabled(s, e) && TaskOk(s, t)
    ensures TaskOk(Next(fn, s, e), t)
  {
  }

  lemma ListedTask(s: State, d: Path, entries: seq<Path>, w: Watch, i: nat)
    requires Lists(s.fs, d, entries) && d in s.watched && s.watched[d] == w && i < |entries|
    ensures TaskOk(s, TasksFor(s.fs, entries, w)[i])
  {
    assert entries[i] in entries;
    assert Parent(entries[i]) == d;
  }

  /** An existing entry of a scanned directory gets its task. */
  lemma ListedIsTasked(s: State, c: Path, entries: seq<Path>, w: Watch, rest: seq<Task>)
    requires c != [] && Lists(s.fs, Parent(c), entries) && (c in s.fs.dirs || c in s.fs.files)
    ensures (if c in s.fs.dirs then AddDir(c, w) else Announce(c, w)) in TasksFor(s.fs, entries, w) + rest
  {
    assert c in Kids(s.fs, Parent(c)) + FilesIn(s.fs, Parent(c));
    assert c in entries;
    var i :| 0 <= i < |entries| && entries[i] == c;
    var ts := TasksFor(s.fs, entries, w);
    assert (ts + rest)[i] == ts[i];
  }

  lemma StepKeepsTaskOk(fn: Fnmatch, ws: seq<Watch>, s: State, e: Step, i: nat)
    requires Enabled(s, e) && Inv(fn, ws, s) && i < |Next(fn, s, e).agenda|
    ensures TaskOk(Next(fn, s, e), Next(fn, s, e).agenda[i])
  {
    var s' := Next(fn, s, e);
    if e.Receive? {
      assert EventOk(s, s.kernel[0]);
    } else if e.Work? {
      assert TaskOk(s, s.agenda[0]);
      if |s'.agenda| < |s.agenda| {
        assert TaskOk(s, s.agenda[i + 1]);
        TaskOkGrows(fn, s, e, s.agenda[i + 1]);
      } else if i > 0 {
        assert TaskOk(s, s.agenda[i]);
        TaskOkGrows(fn, s, e, s.agenda[i]);
      }
    } else if e.ScanDir? {
      assert TaskOk(s, s.agenda[0]);
      if i < |e.entries| {
        ListedTask(s, s.agenda[0].path, e.entries, s.agenda[0].w, i);
        TaskOkGrows(fn, s, e, TasksFor(s.fs, e.entries, s.agenda[0].w)[i]);
      } else {
        var j := i - |e.entries| + 1;
        assert s'.agenda[i] == s.agenda[j] && TaskOk(s, s.agenda[j]);
        TaskOkGrows(fn, s, e, s.agenda[j]);
      }
    } else {
      assert TaskOk(s, s.agenda[i]);
      TaskOkGrows(fn, s, e, s.agenda[i]);
    }
  }

  lemma StepKeepsEventOk(fn: Fnmatch, ws: seq<Watch>, s: State, e: Step, i: nat)
    requires Enabled(s, e) && Inv(fn, ws, s) && i < |Next(fn, s, e).kernel|
    ensures EventOk(Next(fn, s, e), Next(fn, s, e).kernel[i])
  {
    Grows(fn, s, e);
    if e.Receive? {
      assert EventOk(s, s.kernel[i + 1]);
    } else if i < |s.kernel| {
      assert EventOk(s, s.kernel[i]);
    }
  }

  lemma StepKeepsEmissionOk(fn: Fnmatch, ws: seq<Watch>, s: State, e: Step, y: Emission)
    requires Enabled(s, e) && Inv(fn, ws, s) && y in Next(fn, s, e).synthetic
    ensures EmissionOk(ws, y)
  {
    if y in s.synthetic {
      assert EmissionOk(ws, y);
    } else {
      var t := s.agenda[0];
      assert TaskOk(s, s.agenda[0]) && WatchOk(ws, s, Parent(t.path));
      assert t.w.path <= t.path;
    }
  }

  lemma StepKeepsDirOk(fn: Fnmatch, ws: seq<Watch>, s: State, e: Step, d: Path)
    requires Enabled(s, e) && Inv(fn, ws, s)
    ensures DirOk(fn, Next(fn, s, e), d)
  {
    assert DirOk(fn, s, d);
    if OfWatcher(e) {
      WatcherKeepsDirOk(fn, ws, s, e, d);
    } else if e.Mkdir? {
      assert d in s.watched ==> WatchOk(ws, s, d);
    }
  }

  lemma WatcherKeepsDirOk(fn: Fnmatch, ws: seq<Watch>, s: State, e: Step, d: Path)
    requires Enabled(s, e) && OfWatcher(e) && Inv(fn, ws, s)
    ensures DirOk(fn, Next(fn, s, e), d)
  {
    assert DirOk(fn, s, d);
    var s' := Next(fn, s, e);
    if d in s'.fs.dirs && d != [] && Parent(d) in s'.watched && d !in s'.watched {
      var w := s'.watched[Parent(d)];
      if e.Receive? {
        InHeadOrTail(s.kernel, DirCreated(d));
      } else if e.Work? || e.ScanDir? {
        assert TaskOk(s, s.agenda[0]);
        InHeadOrTail(s.agenda, AddDir(d, w));
        InHeadOrTail(s.agenda, Scan(Parent(d), w));
        if e.ScanDir? && s.agenda[0] == Scan(Parent(d), w) {
          ListedIsTasked(s, d, e.entries, w, s.agenda[1..]);
        }
      }
    }
  }

  lemma StepKeepsFileOk(fn: Fnmatch, ws: seq<Watch>, s: State, e: Step, f: Path)
    requires Enabled(s, e) && Inv(fn, ws, s)
    ensures FileOk(fn, Next(fn, s, e), f)
  {
    assert FileOk(fn, s, f);
    if e.Emit? || e.Receive? {
      YieldKeepsFileOk(fn, ws, s, e, f);
    } else if e.Work? || e.ScanDir? {
      WorkKeepsFileOk(fn, ws, s, e, f);
    }
  }

  lemma YieldKeepsFileOk(fn: Fnmatch, ws: seq<Watch>, s: State, e: Step, f: Path)
    requires Enabled(s, e) && (e.Emit? || e.Receive?) && Inv(fn, ws, s)
    ensures FileOk(fn, Next(fn, s, e), f)
  {
    assert FileOk(fn, s, f);
    var s' := Next(fn, s, e);
    if f in s'.due && Parent(f) in s'.watched {
      var w := s'.watched[Parent(f)];
      InHeadOrTail(s.synthetic, Emission("IN_MOVED_TO", f, w.path));
      InHeadOrTail(s.kernel, FileEvent("IN_MOVED_TO", f));
      InHeadOrTail(s.kernel, FileEvent("IN_CLOSE_WRITE", f));
    }
  }

  lemma WorkKeepsFileOk(fn: Fnmatch, ws: seq<Watch>, s: State, e: Step, f: Path)
    requires Enabled(s, e) && (e.Work? || e.ScanDir?) && Inv(fn, ws, s)
    ensures FileOk(fn, Next(fn, s, e), f)
  {
    assert FileOk(fn, s, f) && TaskOk(s, s.agenda[0]);
    var s' := Next(fn, s, e);
    if f in s'.due && Parent(f) in s'.watched {
      var w := s'.watched[Parent(f)];
      InHeadOrTail(s.agenda, Announce(f, w));
      InHeadOrTail(s.agenda, Scan(Parent(f), w));
      if e.ScanDir? && s.agenda[0] == Scan(Parent(f), w) {
        ListedIsTasked(s, f, e.entries, w, s.agenda[1..]);
      }
    }
  }

  lemma StepKeepsInv(fn: Fnmatch, ws: seq<Watch>, s: State, e: Step)
    requires Enabled(s, e) && Inv(fn, ws, s)
    ensures Inv(fn, ws, Next(fn, s, e))
  {
    var s' := Next(fn, s, e);
    StepKeepsTree(fn, s, e);
    forall d ensures WatchOk(ws, s', d) { StepKeepsWatchOk(fn, ws, s, e, d); }
    forall i: nat | i < |s'.agenda| ensures TaskOk(s', s'.agenda[i]) { StepKeepsTaskOk(fn, ws, s, e, i); }
    forall i: nat | i < |s'.kernel| ensures EventOk(s', s'.kernel[i]) { StepKeepsEventOk(fn, ws, s, e, i); }
    forall y | y in s'.synthetic ensures EmissionOk(ws, y) { StepKeepsEmissionOk(fn, ws, s, e, y); }
    forall d ensures DirOk(fn, s', d) { StepKeepsDirOk(fn, ws, s, e, d); }
    forall f ensures FileOk(fn, s', f) { StepKeepsFileOk(fn, ws, s, e, f); }
  }

  lemma {:induction false} RunKeepsInv(fn: Fnmatch, ws: seq<Watch>, s: State, es: seq<Step>)
    requires IsRun(fn, s, es) && Inv(fn, ws, s)
    ensures Inv(fn, ws, After(fn, s, es))
    decreases |es|
  {
    if es != [] {
      StepKeepsInv(fn, ws, s, es[0]);
      RunKeepsInv(fn, ws, Next(fn, s, es[0]), es[1..]);
    }
  }

  lemma StartedInv(fs: Fs, fn: Fnmatch, ws: seq<Watch>)
    requires IsTree(fs) && NonNested(ws)
    ensures Inv(fn, ws, Started(fs, fn, ws))
  {
    var s := Started(fs, fn, ws);
    forall d ensures WatchOk(ws, s, d) && DirOk(fn, s, d) {
      WatchedFrom(fs, fn, ws, d);
      if d != [] {
        WatchedFrom(fs, fn, ws, Parent(d));
        NeighboursShareWatch(fs, fn, ws, d);
      }
    }
  }

  /** At startup a directory in a watched one is watched as well, for the same watch, unless it is
      ignored; and what is watched below a root has a watched parent. */
  lemma NeighboursShareWatch(fs: Fs, fn: Fnmatch, ws: seq<Watch>, d: Path)
    requires NonNested(ws) && d != []
    ensures var m := Bookkeeping(fs, fn, ws);
      && (d in fs.dirs && Parent(d) in m && !Ignored(fn, m[Parent(d)], d) ==> d in m)
      && (d in m ==> d in fs.dirs && (d == m[d].path || (Parent(d) in m && m[Parent(d)] == m[d])))
  {
    var m := Bookkeeping(fs, fn, ws);
    if d in m {
      var i := WatchableFor(fs, fn, ws, d);
      assert Passable(fs, fn, {}, ws[i], d, |d|) && d[..|d|] == d;
      if d != ws[i].path {
        ReachedPrefix(fs, fn, {}, ws[i], ws[i].path, d, |d| - 1);
        WatchedFrom(fs, fn, ws, Parent(d));
        var j := WatchableFor(fs, fn, ws, Parent(d));
        PrefixesCompare(ws[i].path, ws[j].path, d);
        PrefixesCompare(ws[j].path, ws[i].path, d);
      }
    }
    if d in fs.dirs && Parent(d) in m && !Ignored(fn, m[Parent(d)], d) {
      var i := WatchableFor(fs, fn, ws, Parent(d));
      forall n | |ws[i].path| <= n <= |d| ensures Passable(fs, fn, {}, ws[i], d, n) {
        if n < |d| {
          assert Passable(fs, fn, {}, ws[i], Parent(d), n) && Parent(d)[..n] == d[..n];
        } else {
          assert d[..n] == d;
        }
      }
      WatchedFrom(fs, fn, ws, d);
    }
  }

  lemma WatchableFor(fs: Fs, fn: Fnmatch, ws: seq<Watch>, d: Path) returns (i: nat)
    requires NonNested(ws) && d in Bookkeeping(fs, fn, ws)
    ensures i < |ws| && Bookkeeping(fs, fn, ws)[d] == ws[i] && d in Watchable(fs, fn, ws[i])
  {
    WatchedFrom(fs, fn, ws, d);
    i :| 0 <= i < |ws| && ws[i] == Bookkeeping(fs, fn, ws)[d];
    var j :| 0 <= j < |ws| && d in Watchable(fs, fn, ws[j]);
    PrefixesCompare(ws[i].path, ws[j].path, d);
    PrefixesCompare(ws[j].path, ws[i].path, d);
  }

  // ---------------------------------------------------------------- coverage

  /** No path component below the root is ignored. */
  ghost predicate Unignored(fn: Fnmatch, w: Watch, f: Path) {
    w.path <= f && forall n {:trigger f[..n]} :: |w.path| < n <= |f| ==> !Ignored(fn, w, f[..n])
  }

  /** The n-th ancestor of f is the first that is not watched yet, and about to be: its creation
      is queued or in hand, or the directory it lies in is being scanned. */
  ghost predicate Frontier(s: State, w: Watch, f: Path, n: nat) {
    && |w.path| < n < |f| && f[..n] !in s.watched
    && InWatched(s, f[..n], w)
    && (DirCreated(f[..n]) in s.kernel || AddDir(f[..n], w) in s.agenda || Scan(Parent(f[..n]), w) in s.agenda)
  }

  ghost predicate Covered(s: State, w: Watch, f: Path) {
    || Emission("IN_MOVED_TO", f, w.path) in s.synthetic
    || (f != [] && Parent(f) in s.watched
        && (FileEvent("IN_MOVED_TO", f) in s.kernel || FileEvent("IN_CLOSE_WRITE", f) in s.kernel))
    || Announce(f, w) in s.agenda
    || (f != [] && Scan(Parent(f), w) in s.agenda)
    || exists n :: 0 <= n && Frontier(s, w, f, n)
  }

  lemma OneRootAbove(ws: seq<Watch>, v: Watch, w: Watch, p: Path)
    requires NonNested(ws) && v in ws && w in ws && v.path <= p && w.path <= p
    ensures v == w
  {
  }

  lemma {:induction false} CoveredFrom(fn: Fnmatch, ws: seq<Watch>, s: State, w: Watch, f: Path, n: nat)
    requires Inv(fn, ws, s) && NonNested(ws) && w in ws && f in s.due && Unignored(fn, w, f)
    requires |w.path| <= n < |f| && f[..n] in s.watched && s.watched[f[..n]] == w
    ensures Covered(s, w, f)
    decreases |f| - n
  {
    var d := f[..n + 1];
    assert Parent(d) == f[..n];
    assert FileOk(fn, s, f);
    if n + 1 == |f| {
      assert d == f;
    } else {
      assert Parent(f)[..n + 1] == d;
      AncestorsExist(s.fs, Parent(f), n + 1);
      assert DirOk(fn, s, d);
      if d in s.watched {
        assert WatchOk(ws, s, d);
        assert w.path <= d;
        OneRootAbove(ws, s.watched[d], w, d);
        CoveredFrom(fn, ws, s, w, f, n + 1);
      } else {
        assert Frontier(s, w, f, n + 1);
      }
    }
  }

  /** In every reachable state a finalised file that is not ignored and not reported since is
      waiting to be announced, or has its event queued, or lies in or below a directory whose
      creation is queued or whose scan is under way. */
  lemma NoFileIsMissed(fs: Fs, fn: Fnmatch, ws: seq<Watch>, s: State, w: Watch, f: Path)
    requires IsTree(fs) && NonNested(ws) && w in ws && w.path in fs.dirs && Reachable(fs, fn, ws, s)
    requires f in s.due && f != w.path && Unignored(fn, w, f)
    ensures Covered(s, w, f)
  {
    ReachableInv(fs, fn, ws, s, w);
    assert f[..|w.path|] == w.path;
    CoveredFrom(fn, ws, s, w, f, |w.path|);
  }

  lemma ReachableInv(fs: Fs, fn: Fnmatch, ws: seq<Watch>, s: State, w: Watch)
    requires IsTree(fs) && NonNested(ws) && w in ws && w.path in fs.dirs && Reachable(fs, fn, ws, s)
    ensures Inv(fn, ws, s) && w.path in s.watched && s.watched[w.path] == w
  {
    var es :| IsRun(fn, Started(fs, fn, ws), es) && After(fn, Started(fs, fn, ws), es) == s;
    StartedInv(fs, fn, ws);
    RunKeepsInv(fn, ws, Started(fs, fn, ws), es);
    RootIsWatched(fs, fn, ws, w);
    RunGrows(fn, Started(fs, fn, ws), es);
  }

  lemma RootIsWatched(fs: Fs, fn: Fnmatch, ws: seq<Watch>, w: Watch)
    requires NonNested(ws) && w in ws && w.path in fs.dirs
    ensures w.path in Bookkeeping(fs, fn, ws) && Bookkeeping(fs, fn, ws)[w.path] == w
  {
    assert w.path[..|w.path|] == w.path && Passable(fs, fn, {}, w, w.path, |w.path|);
    assert w.path in Watchable(fs, fn, w);
    WatchedFrom(fs, fn, ws, w.path);
    OneRootAbove(ws, Bookkeeping(fs, fn, ws)[w.path], w, w.path);
  }

  lemma {:induction false} RunGrows(fn: Fnmatch, s: State, es: seq<Step>)
    requires IsRun(fn, s, es)
    ensures forall d :: d in s.watched ==> d in After(fn, s, es).watched && After(fn, s, es).watched[d] == s.watched[d]
    decreases |es|
  {
    if es != [] {
      Grows(fn, s, es[0]);
      RunGrows(fn, Next(fn, s, es[0]), es[1..]);
    }
  }

  // ---------------------------------------------------------------- every file is reported

  /** What a run yields downstream, in order. */
  ghost function Output(fn: Fnmatch, s: State, es: seq<Step>): seq<Emission>
    requires IsRun(fn, s, es)
    decreases |es|
  {
    if es == [] then []
    else
      (match Yielded(s, es[0]) case None => [] case Some(y) => [y]) + Output(fn, Next(fn, s, es[0]), es[1..])
  }

  ghost predicate Quiet(s: State) {
    s.kernel == [] && s.agenda == [] && s.synthetic == []
  }

  ghost predicate Removes(e: Step, f: Path) {
    e.Vanish? && e.f == f
  }

  /** A report of f as written, for the watch w. */
  ghost predicate Reports(y: Emission, w: Watch, f: Path) {
    y.path == f && y.root == w.path && Finalising(y.mask)
  }

  ghost predicate ReportedIn(fn: Fnmatch, s: State, es: seq<Step>, w: Watch, f: Path)
    requires IsRun(fn, s, es)
  {
    exists y :: y in Output(fn, s, es) && Reports(y, w, f)
  }

  lemma YieldedIsRooted(fn: Fnmatch, ws: seq<Watch>, s: State, e: Step, w: Watch)
    requires Enabled(s, e) && Inv(fn, ws, s) && NonNested(ws) && w in ws
    requires Yielded(s, e).Some? && w.path <= Yielded(s, e).value.path
    ensures Yielded(s, e).value.root == w.path
  {
    var y := Yielded(s, e).value;
    if e.Emit? {
      assert EmissionOk(ws, y);
      var v :| v in ws && y.root == v.path && v.path <= y.path;
      OneRootAbove(ws, v, w, y.path);
    } else {
      assert WatchOk(ws, s, Parent(y.path));
      OneRootAbove(ws, s.watched[Parent(y.path)], w, y.path);
    }
  }

  lemma DueUnlessReported(fn: Fnmatch, s: State, e: Step, f: Path)
    requires Enabled(s, e) && f in s.due && !Removes(e, f)
    ensures f in Next(fn, s, e).due || (OfWatcher(e) && f in Reported(s, e))
  {
  }

  lemma {:induction false} DueUntilReported(fn: Fnmatch, ws: seq<Watch>, s: State, es: seq<Step>, w: Watch, f: Path)
    requires IsRun(fn, s, es) && Inv(fn, ws, s) && NonNested(ws) && w in ws && w.path <= f
    requires f in s.due && f !in After(fn, s, es).due && forall i :: 0 <= i < |es| ==> !Removes(es[i], f)
    ensures ReportedIn(fn, s, es, w, f)
    decreases |es|
  {
    var s' := Next(fn, s, es[0]);
    if f in Reported(s, es[0]) {
      var y := Yielded(s, es[0]).value;
      YieldedIsRooted(fn, ws, s, es[0], w);
      assert y in Output(fn, s, es) && Reports(y, w, f);
    } else {
      assert !Removes(es[0], f);
      StepKeepsInv(fn, ws, s, es[0]);
      DueUntilReported(fn, ws, s', es[1..], w, f);
      var y :| y in Output(fn, s', es[1..]) && Reports(y, w, f);
      assert y in Output(fn, s, es);
    }
  }

  lemma QuietMeansReported(fn: Fnmatch, ws: seq<Watch>, s: State, w: Watch, f: Path)
    requires Inv(fn, ws, s) && NonNested(ws) && w in ws && w.path in s.watched && s.watched[w.path] == w
    requires Quiet(s) && f != w.path && Unignored(fn, w, f)
    ensures f !in s.due
  {
    if f in s.due {
      assert f[..|w.path|] == w.path;
      CoveredFrom(fn, ws, s, w, f, |w.path|);
    }
  }

  lemma DueIsReported(fn: Fnmatch, ws: seq<Watch>, s: State, later: seq<Step>, w: Watch, f: Path)
    requires Inv(fn, ws, s) && NonNested(ws) && w in ws && w.path in s.watched && s.watched[w.path] == w
    requires f in s.due && f != w.path && Unignored(fn, w, f)
    requires IsRun(fn, s, later) && Quiet(After(fn, s, later)) && forall i :: 0 <= i < |later| ==> !Removes(later[i], f)
    ensures ReportedIn(fn, s, later, w, f)
  {
    RunKeepsInv(fn, ws, s, later);
    RunGrows(fn, s, later);
    QuietMeansReported(fn, ws, After(fn, s, later), w, f);
    DueUntilReported(fn, ws, s, later, w, f);
  }

  /** A file written and not removed afterwards is reported after it was written, by the time the
      watcher has nothing left to do. */
  lemma WrittenFileIsReported(fs: Fs, fn: Fnmatch, ws: seq<Watch>, s: State, f: Path, mask: string,
                              later: seq<Step>, w: Watch)
    requires IsTree(fs) && NonNested(ws) && w in ws && w.path in fs.dirs && f != w.path && Unignored(fn, w, f)
    requires Reachable(fs, fn, ws, s) && Enabled(s, Finalise(f, mask))
    requires var t := Next(fn, s, Finalise(f, mask)); IsRun(fn, t, later) && Quiet(After(fn, t, later))
    requires forall i :: 0 <= i < |later| ==> !Removes(later[i], f)
    ensures ReportedIn(fn, Next(fn, s, Finalise(f, mask)), later, w, f)
  {
    ReachableInv(fs, fn, ws, s, w);
    StepKeepsInv(fn, ws, s, Finalise(f, mask));
    Grows(fn, s, Finalise(f, mask));
    DueIsReported(fn, ws, Next(fn, s, Finalise(f, mask)), later, w, f);
  }

  /** The event filter passes such a report on. */
  lemma ReportPassesFilter(fn: Fnmatch, ws: seq<Watch>, y: Emission, w: Watch, f: Path)
    requires NonNested(ws) && w in ws && Unignored(fn, w, f) && f != w.path && Reports(y, w, f)
    ensures Verdict(fn, SortByDepth(ws), y.mask, y.path) == Some(FsEvent(Invalidate, f, y.root))
  {
    var i :| 0 <= i < |ws| && ws[i] == w;
    forall j | 0 <= j < |ws| && ws[j].path <= f ensures j == i {
      OneRootAbove(ws, ws[j], w, f);
    }
    assert Owns(ws, i, f);
    assert f[..|f|] == f;
    FilterAndMapperAgree(fn, ws, y.mask, f, i);
    ScanFindsDeepestOwner(ws, f, i);
  }
}
