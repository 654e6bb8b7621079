/** The agenda of the moving model against the recursion of `_add_dir_and_scan`: when nothing else
    happens meanwhile, working it off does what `InotifyWatcher.AddDirAndScan` is specified to do. */
module WatcherRescan {
  import opened Prelude
  import opened Globs
  import opened Ownership
  import opened Watcher
  import opened WatcherRace

  /** A rescan of `path` for w, begun in `start`, that finds the directories ds. */
  datatype Rescan = Rescan(start: State, path: Path, w: Watch, ds: set<Path>)

  ghost predicate IsRescanOf(fn: Fnmatch, r: Rescan) {
    && IsTree(r.start.fs) && r.path in r.start.fs.dirs && r.w.path <= r.path && r.w.path != r.path
    && r.ds == NewWatches(r.start.fs, fn, r.start.watched.Keys, r.w, r.path)
  }

  lemma NewOneByOne(fn: Fnmatch, r: Rescan, d: Path)
    requires IsRescanOf(fn, r)
    ensures r.path in r.ds <==> r.path !in r.start.watched && !Ignored(fn, r.w, r.path)
    ensures d != [] && d != r.path ==>
      (d in r.ds <==> Parent(d) in r.ds && d in r.start.fs.dirs && d !in r.start.watched && !Ignored(fn, r.w, d))
  {
    var fs, known, w, path := r.start.fs, r.start.watched.Keys, r.w, r.path;
    assert path[..|path|] == path && d[..|d|] == d;
    if path !in known && !Ignored(fn, w, path) {
      assert Passable(fs, fn, known, w, path, |path|);
    }
    if path in r.ds {
      assert Passable(fs, fn, known, w, path, |path|);
    }
    if d != [] && d != path {
      if d in r.ds {
        assert Passable(fs, fn, known, w, d, |d|);
        ReachedPrefix(fs, fn, known, w, path, d, |d| - 1);
      }
      if Parent(d) in r.ds && d in fs.dirs && d !in known && !Ignored(fn, w, d) {
        forall n | |path| <= n <= |d| ensures Passable(fs, fn, known, w, d, n) {
          if n < |d| {
            assert Passable(fs, fn, known, w, Parent(d), n) && Parent(d)[..n] == d[..n];
          }
        }
      }
    }
  }

  ghost predicate Found(r: Rescan, s: State, d: Path) {
    d in r.ds && d in s.watched && s.watched[d] == r.w
  }

  ghost predicate WatchesFound(r: Rescan, s: State, d: Path) {
    if d in r.start.watched then d in s.watched && s.watched[d] == r.start.watched[d]
    else d in s.watched ==> Found(r, s, d)
  }

  ghost predicate TaskFound(r: Rescan, s: State, t: Task) {
    t.w == r.w && match t
      case Scan(d, _) => Found(r, s, d)
      case AddDir(d, _) => d in s.fs.dirs && d != [] && (d == r.path || Found(r, s, Parent(d)))
      case Announce(f, _) => f in s.fs.files && f != [] && Found(r, s, Parent(f))
  }

  ghost predicate DirToFind(r: Rescan, s: State, d: Path) {
    d in r.ds && d !in s.watched && d != [] && (d == r.path || Parent(d) in s.watched) ==>
      AddDir(d, r.w) in s.agenda || Scan(Parent(d), r.w) in s.agenda
  }

  ghost function Said(r: Rescan, s: State): seq<Emission>
    requires r.start.synthetic <= s.synthetic
  {
    s.synthetic[|r.start.synthetic|..]
  }

  ghost predicate FileFound(fn: Fnmatch, r: Rescan, s: State, f: Path)
    requires r.start.synthetic <= s.synthetic
  {
    && (Announced(Said(r, s), f) ==> ToAnnounce(s.fs, fn, r.w, r.ds, f))
    && (f in s.fs.files && f != [] && Found(r, s, Parent(f)) && !Ignored(fn, r.w, f) ==>
          Announced(Said(r, s), f) || Announce(f, r.w) in s.agenda || Scan(Parent(f), r.w) in s.agenda)
  }

  ghost predicate Midway(fn: Fnmatch, r: Rescan, s: State) {
    && s.fs == r.start.fs && r.start.synthetic <= s.synthetic && FromWatch(Said(r, s), r.w)
    && (forall d {:trigger WatchesFound(r, s, d)} :: WatchesFound(r, s, d))
    && (forall i {:trigger TaskFound(r, s, s.agenda[i])} :: 0 <= i < |s.agenda| ==> TaskFound(r, s, s.agenda[i]))
    && (forall d {:trigger DirToFind(r, s, d)} :: DirToFind(r, s, d))
    && (forall f {:trigger FileFound(fn, r, s, f)} :: FileFound(fn, r, s, f))
  }

  lemma Begins(fn: Fnmatch, r: Rescan)
    requires IsRescanOf(fn, r) && r.start.agenda == [AddDir(r.path, r.w)]
    ensures Midway(fn, r, r.start)
  {
    forall d ensures WatchesFound(r, r.start, d) && DirToFind(r, r.start, d) {
      NewOneByOne(fn, r, d);
      if d != [] && Parent(d) in r.start.watched && Parent(d) in r.ds {
        NewOneByOne(fn, r, Parent(d));
      }
    }
    forall f ensures FileFound(fn, r, r.start, f) {
      if f != [] && Parent(f) in r.ds {
        NewOneByOne(fn, r, Parent(f));
      }
    }
  }

  lemma FoundStays(fn: Fnmatch, r: Rescan, s: State, e: Step, d: Path)
    requires Enabled(s, e) && Found(r, s, d)
    ensures Found(r, Next(fn, s, e), d)
  {
  }

  lemma WatchesFoundStep(fn: Fnmatch, r: Rescan, s: State, e: Step, d: Path)
    requires IsRescanOf(fn, r) && Midway(fn, r, s) && Enabled(s, e) && (e.Work? || e.ScanDir?)
    ensures WatchesFound(r, Next(fn, s, e), d)
  {
    assert WatchesFound(r, s, d) && TaskFound(r, s, s.agenda[0]);
    var p := s.agenda[0].path;
    NewOneByOne(fn, r, p);
    assert WatchesFound(r, s, p);
  }

  lemma TaskFoundStep(fn: Fnmatch, r: Rescan, s: State, e: Step, i: nat)
    requires IsRescanOf(fn, r) && Midway(fn, r, s) && Enabled(s, e) && (e.Work? || e.ScanDir?)
    requires i < |Next(fn, s, e).agenda|
    ensures TaskFound(r, Next(fn, s, e), Next(fn, s, e).agenda[i])
  {
    var s' := Next(fn, s, e);
    var t := s.agenda[0];
    assert TaskFound(r, s, s.agenda[0]);
    if e.ScanDir? && i < |e.entries| {
      assert e.entries[i] in e.entries && Parent(e.entries[i]) == t.path;
    } else if e.Work? && |s'.agenda| == |s.agenda| && i == 0 {
      WatchesFoundStep(fn, r, s, e, t.path);
      NewOneByOne(fn, r, t.path);
      assert WatchesFound(r, s, t.path);
    } else {
      var j := if e.ScanDir? then i - |e.entries| + 1 else if |s'.agenda| == |s.agenda| then i else i + 1;
      assert s'.agenda[i] == s.agenda[j] && TaskFound(r, s, s.agenda[j]);
      var q := s.agenda[j];
      if q.path != [] && Found(r, s, Parent(q.path)) {
        FoundStays(fn, r, s, e, Parent(q.path));
      }
      if Found(r, s, q.path) {
        FoundStays(fn, r, s, e, q.path);
      }
    }
  }

  lemma DirToFindStep(fn: Fnmatch, r: Rescan, s: State, e: Step, d: Path)
    requires IsRescanOf(fn, r) && Midway(fn, r, s) && Enabled(s, e) && (e.Work? || e.ScanDir?)
    ensures DirToFind(r, Next(fn, s, e), d)
  {
    var s' := Next(fn, s, e);
    assert DirToFind(r, s, d) && TaskFound(r, s, s.agenda[0]);
    if d in r.ds && d !in s'.watched && d != [] && (d == r.path || Parent(d) in s'.watched) {
      InHeadOrTail(s.agenda, AddDir(d, r.w));
      InHeadOrTail(s.agenda, Scan(Parent(d), r.w));
      NewOneByOne(fn, r, d);
      if e.ScanDir? && s.agenda[0] == Scan(Parent(d), r.w) {
        ListedIsTasked(s, d, e.entries, r.w, s.agenda[1..]);
      }
    }
  }

  lemma FileFoundStep(fn: Fnmatch, r: Rescan, s: State, e: Step, f: Path)
    requires IsRescanOf(fn, r) && Midway(fn, r, s) && Enabled(s, e) && (e.Work? || e.ScanDir?)
    ensures r.start.synthetic <= Next(fn, s, e).synthetic && FromWatch(Said(r, Next(fn, s, e)), r.w)
    ensures FileFound(fn, r, Next(fn, s, e), f)
  {
    var s', t := Next(fn, s, e), s.agenda[0];
    assert FileFound(fn, r, s, f) && TaskFound(r, s, s.agenda[0]);
    SaidGrows(fn, r, s, e, f);
    if f in s.fs.files && f != [] && Found(r, s', Parent(f)) && !Ignored(fn, r.w, f) {
      InHeadOrTail(s.agenda, Announce(f, r.w));
      InHeadOrTail(s.agenda, Scan(Parent(f), r.w));
      if e.ScanDir? && t == Scan(Parent(f), r.w) {
        ListedIsTasked(s, f, e.entries, r.w, s.agenda[1..]);
      }
    }
  }

  /** Only working on an announcement says something. */
  lemma SaidGrows(fn: Fnmatch, r: Rescan, s: State, e: Step, f: Path)
    requires r.start.synthetic <= s.synthetic && FromWatch(Said(r, s), r.w) && Enabled(s, e) && (e.Work? || e.ScanDir?)
    requires TaskFound(r, s, s.agenda[0])
    ensures var s', t := Next(fn, s, e), s.agenda[0];
      && r.start.synthetic <= s'.synthetic && FromWatch(Said(r, s'), r.w)
      && (Announced(Said(r, s'), f) <==>
            Announced(Said(r, s), f) || (t.Announce? && t.path == f && !Ignored(fn, r.w, f)))
  {
    var s', t := Next(fn, s, e), s.agenda[0];
    if s'.synthetic != s.synthetic {
      AnnouncementsJoin(r.start.synthetic, s.synthetic, s'.synthetic, r.w);
      assert s'.synthetic[|s.synthetic|..] == [Emission("IN_MOVED_TO", t.path, r.w.path)];
      AnnouncedOne(Emission("IN_MOVED_TO", t.path, r.w.path));
    }
  }

  lemma MidwayStep(fn: Fnmatch, r: Rescan, s: State, e: Step)
    requires IsRescanOf(fn, r) && Midway(fn, r, s) && Enabled(s, e) && (e.Work? || e.ScanDir?)
    ensures Midway(fn, r, Next(fn, s, e))
  {
    var s' := Next(fn, s, e);
    forall d ensures WatchesFound(r, s', d) { WatchesFoundStep(fn, r, s, e, d); }
    forall i: nat | i < |s'.agenda| ensures TaskFound(r, s', s'.agenda[i]) { TaskFoundStep(fn, r, s, e, i); }
    forall d ensures DirToFind(r, s', d) { DirToFindStep(fn, r, s, e, d); }
    FileFoundStep(fn, r, s, e, []);
    forall f ensures FileFound(fn, r, s', f) { FileFoundStep(fn, r, s, e, f); }
  }

  lemma {:induction false} MidwayRun(fn: Fnmatch, r: Rescan, s: State, es: seq<Step>)
    requires IsRescanOf(fn, r) && Midway(fn, r, s) && IsRun(fn, s, es)
    requires forall i :: 0 <= i < |es| ==> es[i].Work? || es[i].ScanDir?
    ensures Midway(fn, r, After(fn, s, es))
    decreases |es|
  {
    if es != [] {
      MidwayStep(fn, r, s, es[0]);
      MidwayRun(fn, r, Next(fn, s, es[0]), es[1..]);
    }
  }

  lemma {:induction false} AllFound(fn: Fnmatch, r: Rescan, s: State, d: Path)
    requires IsRescanOf(fn, r) && Midway(fn, r, s) && s.agenda == [] && d in r.ds
    ensures Found(r, s, d)
    decreases |d|
  {
    NewOneByOne(fn, r, d);
    assert DirToFind(r, s, d) && WatchesFound(r, s, d);
    if d != r.path {
      AllFound(fn, r, s, Parent(d));
    }
  }

  lemma WatchesAtTheEnd(fn: Fnmatch, r: Rescan, s: State)
    requires IsRescanOf(fn, r) && Midway(fn, r, s) && s.agenda == []
    ensures s.watched == WithWatches(r.start.watched, r.ds, r.w)
  {
    var m := WithWatches(r.start.watched, r.ds, r.w);
    forall d ensures (d in s.watched <==> d in m) && (d in m ==> s.watched[d] == m[d]) {
      assert WatchesFound(r, s, d);
      NewOneByOne(fn, r, d);
      if d in r.ds {
        AllFound(fn, r, s, d);
      }
    }
  }

  // ---------------------------------------------------------------- once each

  /** The tasks are about different subtrees, and nothing in them was said yet, nor anything twice. */
  ghost predicate SaysOnce(r: Rescan, s: State) {
    && r.start.synthetic <= s.synthetic && OnceEach(Said(r, s))
    && (forall i, j {:trigger s.agenda[i], s.agenda[j]} :: 0 <= i < |s.agenda| && 0 <= j < |s.agenda| && i != j ==>
          !(s.agenda[i].path <= s.agenda[j].path))
    && (forall i, k {:trigger s.agenda[i], Said(r, s)[k]} :: 0 <= i < |s.agenda| && 0 <= k < |Said(r, s)| ==>
          !(s.agenda[i].path <= Said(r, s)[k].path))
  }

  lemma WorkSaysOnce(fn: Fnmatch, r: Rescan, s: State)
    requires Enabled(s, Work) && SaysOnce(r, s)
    ensures SaysOnce(r, Next(fn, s, Work))
  {
    var t, s' := s.agenda[0], Next(fn, s, Work);
    assert s'.synthetic == s.synthetic || s'.synthetic == s.synthetic + [Emission("IN_MOVED_TO", t.path, t.w.path)];
    assert forall k :: 0 <= k < |Said(r, s)| ==> Said(r, s')[k] == Said(r, s)[k];
    assert |s'.agenda| == |s.agenda| || s'.agenda == s.agenda[1..];
    assert |s'.agenda| == |s.agenda| ==> Said(r, s') == Said(r, s);
  }

  lemma ScanSaysOnce(fn: Fnmatch, r: Rescan, s: State, entries: seq<Path>)
    requires Enabled(s, ScanDir(entries)) && SaysOnce(r, s)
    ensures SaysOnce(r, Next(fn, s, ScanDir(entries)))
  {
    var t, s', n := s.agenda[0], Next(fn, s, ScanDir(entries)), |entries|;
    forall i | 0 <= i < n ensures t.path <= entries[i] && |entries[i]| == |t.path| + 1 {
      assert entries[i] in entries;
    }
    forall i, j | 0 <= i < |s'.agenda| && 0 <= j < |s'.agenda| && i != j
      ensures !(s'.agenda[i].path <= s'.agenda[j].path)
    {
      if i < n <= j {
        assert s'.agenda[j] == s.agenda[j - n + 1];
        PrefixOfPrefix(t.path, entries[i], s'.agenda[j].path);
      } else if j < n <= i {
        assert s'.agenda[i] == s.agenda[i - n + 1];
        PrefixesCompare(s'.agenda[i].path, t.path, entries[j]);
        PrefixesCompare(t.path, s'.agenda[i].path, entries[j]);
      } else if i < n {
        PrefixesCompare(entries[i], entries[j], entries[j]);
      } else {
        assert s'.agenda[i] == s.agenda[i - n + 1] && s'.agenda[j] == s.agenda[j - n + 1];
      }
    }
    forall i, k | 0 <= i < |s'.agenda| && 0 <= k < |Said(r, s')| ensures !(s'.agenda[i].path <= Said(r, s')[k].path) {
      if i < n {
        PrefixOfPrefix(t.path, entries[i], Said(r, s)[k].path);
      } else {
        assert s'.agenda[i] == s.agenda[i - n + 1];
      }
    }
  }

  lemma {:induction false} RunSaysOnce(fn: Fnmatch, r: Rescan, s: State, es: seq<Step>)
    requires SaysOnce(r, s) && IsRun(fn, s, es) && forall i :: 0 <= i < |es| ==> es[i].Work? || es[i].ScanDir?
    ensures SaysOnce(r, After(fn, s, es))
    decreases |es|
  {
    if es != [] {
      if es[0].Work? {
        WorkSaysOnce(fn, r, s);
      } else {
        ScanSaysOnce(fn, r, s, es[0].entries);
      }
      RunSaysOnce(fn, r, Next(fn, s, es[0]), es[1..]);
    }
  }

  // ---------------------------------------------------------------- result

  lemma AnnouncedAtTheEnd(fn: Fnmatch, r: Rescan, s: State)
    requires IsRescanOf(fn, r) && Midway(fn, r, s) && SaysOnce(r, s) && s.agenda == []
    ensures IsRescan(r.start.fs, fn, r.w, r.ds, Said(r, s))
  {
    forall f ensures Announced(Said(r, s), f) <==> ToAnnounce(s.fs, fn, r.w, r.ds, f) {
      assert FileFound(fn, r, s, f);
      if f != [] && Parent(f) in r.ds {
        AllFound(fn, r, s, Parent(f));
      }
    }
  }

  /** Worked off without interruption, in whatever order `scandir` lists, a rescan watches the new
      unignored directories and announces the unignored files in them, exactly and once each. */
  lemma UndisturbedRescan(fn: Fnmatch, r: Rescan, es: seq<Step>)
    requires IsRescanOf(fn, r) && r.start.agenda == [AddDir(r.path, r.w)] && IsRun(fn, r.start, es)
    requires After(fn, r.start, es).agenda == [] && forall i :: 0 <= i < |es| ==> es[i].Work? || es[i].ScanDir?
    ensures var s := After(fn, r.start, es);
      && s.watched == WithWatches(r.start.watched, r.ds, r.w)
      && r.start.synthetic <= s.synthetic && IsRescan(r.start.fs, fn, r.w, r.ds, Said(r, s))
  {
    Begins(fn, r);
    MidwayRun(fn, r, r.start, es);
    RunSaysOnce(fn, r, r.start, es);
    WatchesAtTheEnd(fn, r, After(fn, r.start, es));
    AnnouncedAtTheEnd(fn, r, After(fn, r.start, es));
  }

  /** The kernel event as the watcher gets it. */
  function Raw(ev: Event): RawEvent
    requires ev.path != []
  {
    match ev
    case DirCreated(d) => RawEvent({"IN_CREATE", "IN_ISDIR"}, Some(Parent(d)), Some(d))
    case FileEvent(mask, f) => RawEvent({mask}, Some(Parent(f)), Some(f))
  }

  /** The step that takes an event yields and rescans as `InotifyWatcher.NextItem` does on it. */
  lemma ReceiveIsNextItem(fn: Fnmatch, s: State)
    requires Enabled(s, Receive) && EventOk(s, s.kernel[0])
    requires s.kernel[0].FileEvent? ==> s.kernel[0].mask == "IN_CREATE" || Named(s.kernel[0].mask)
    ensures var ev, s' := s.kernel[0], Next(fn, s, Receive);
      && Yielded(s, Receive) == Reportable(s.watched, Raw(ev))
      && s'.agenda == if NewDirectory(s.watched, Raw(ev)) then [AddDir(ev.path, s.watched[Parent(ev.path)])] else []
  {
  }
}
