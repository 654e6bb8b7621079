/** When the file system pauses: the watcher runs out of work within a bound, and an undisturbed
    rescan does what `_add_dir_and_scan` is specified to do. */
module WatcherCatchUp {
  import opened Prelude
  import opened Globs
  import opened Ownership
  import opened Watcher
  import opened WatcherStartup
  import opened WatcherRace

  function Scans(ts: seq<Task>): nat {
    if ts == [] then 0 else Scans(ts[1..]) + if ts[0].Scan? then 1 else 0
  }

  lemma {:induction false} ScansJoin(a: seq<Task>, b: seq<Task>)
    ensures Scans(a + b) == Scans(a) + Scans(b)
  {
    if a == [] {
      assert a + b == b;
    } else {
      assert (a + b)[1..] == a[1..] + b;
      ScansJoin(a[1..], b);
    }
  }

  lemma {:induction false} ScansBound(ts: seq<Task>)
    ensures Scans(ts) <= |ts|
    ensures (forall i :: 0 <= i < |ts| ==> !ts[i].Scan?) ==> Scans(ts) == 0
  {
    if ts != [] {
      ScansBound(ts[1..]);
    }
  }

  /** What the watcher still has to do.  A directory to be watched or scanned stands for all the
      entries it could turn out to have. */
  ghost function Backlog(s: State): int {
    OnAgenda(PerDirectory(s.fs), |s.fs.dirs - s.watched.Keys|, s.agenda) + 3 * |s.kernel| + |s.synthetic|
  }

  function OnAgenda(k: nat, unwatched: nat, agenda: seq<Task>): int {
    Times(k, unwatched + Scans(agenda)) + 2 * (|agenda| - Scans(agenda))
  }

  ghost function PerDirectory(fs: Fs): nat {
    2 * |fs.dirs + fs.files| + 2
  }

  function Times(k: nat, n: nat): nat {
    if n == 0 then 0 else k + Times(k, n - 1)
  }

  lemma {:induction false} DistinctBound(list: seq<Path>, all: set<Path>)
    requires forall c :: c in list ==> c in all
    requires forall i, j :: 0 <= i < j < |list| ==> list[i] != list[j]
    ensures |list| <= |all|
    decreases |list|
  {
    if list != [] {
      var rest := list[1..];
      forall c | c in rest ensures c in all - {list[0]} {
        var i :| 0 <= i < |rest| && rest[i] == c;
        assert list[i + 1] == c && list[0] != list[i + 1];
      }
      DistinctBound(rest, all - {list[0]});
    }
  }

  lemma TaskAway(k: nat, unwatched: nat, agenda: seq<Task>)
    requires agenda != [] && !agenda[0].Scan?
    ensures OnAgenda(k, unwatched, agenda[1..]) == OnAgenda(k, unwatched, agenda) - 2
  {
  }

  lemma WatchBecomesScan(k: nat, unwatched: nat, t: Task, scan: Task, rest: seq<Task>)
    requires unwatched > 0 && !t.Scan? && scan.Scan?
    ensures OnAgenda(k, unwatched - 1, [scan] + rest) == OnAgenda(k, unwatched, [t] + rest) - 2
  {
  }

  lemma ScanBecomesTasks(k: nat, unwatched: nat, scan: Task, ts: seq<Task>, rest: seq<Task>)
    requires scan.Scan? && k > 2 * |ts| && forall i :: 0 <= i < |ts| ==> !ts[i].Scan?
    ensures OnAgenda(k, unwatched, ts + rest) < OnAgenda(k, unwatched, [scan] + rest)
  {
    assert ([scan] + rest)[1..] == rest;
    ScansJoin(ts, rest);
    ScansBound(ts);
  }

  lemma WorkLowers(fn: Fnmatch, ws: seq<Watch>, s: State)
    requires Enabled(s, Work) && Inv(fn, ws, s)
    ensures Backlog(Next(fn, s, Work)) < Backlog(s)
  {
    var t := s.agenda[0];
    if t.AddDir? && !Ignored(fn, t.w, t.path) && t.path !in s.watched {
      WatchingLowers(fn, ws, s);
    } else {
      TaskAway(PerDirectory(s.fs), |s.fs.dirs - s.watched.Keys|, s.agenda);
    }
  }

  lemma WatchingLowers(fn: Fnmatch, ws: seq<Watch>, s: State)
    requires Enabled(s, Work) && Inv(fn, ws, s)
    requires var t := s.agenda[0]; t.AddDir? && !Ignored(fn, t.w, t.path) && t.path !in s.watched
    ensures Backlog(Next(fn, s, Work)) < Backlog(s)
  {
    var t, s' := s.agenda[0], Next(fn, s, Work);
    assert TaskOk(s, s.agenda[0]);
    assert s'.fs.dirs - s'.watched.Keys == (s.fs.dirs - s.watched.Keys) - {t.path};
    assert s.agenda == [t] + s.agenda[1..];
    WatchBecomesScan(PerDirectory(s.fs), |s.fs.dirs - s.watched.Keys|, t, Scan(t.path, t.w), s.agenda[1..]);
  }

  lemma ScanLowers(fn: Fnmatch, ws: seq<Watch>, s: State, entries: seq<Path>)
    requires Enabled(s, ScanDir(entries)) && Inv(fn, ws, s)
    ensures Backlog(Next(fn, s, ScanDir(entries))) < Backlog(s)
  {
    var t, rest := s.agenda[0], s.agenda[1..];
    assert s.agenda == [t] + rest;
    DistinctBound(entries, s.fs.dirs + s.fs.files);
    ScanBecomesTasks(PerDirectory(s.fs), |s.fs.dirs - s.watched.Keys|, t, TasksFor(s.fs, entries, t.w), rest);
  }

  /** Every step of the watcher leaves it less to do. */
  lemma WatcherStepLowers(fn: Fnmatch, ws: seq<Watch>, s: State, e: Step)
    requires Enabled(s, e) && OfWatcher(e) && Inv(fn, ws, s)
    ensures 0 <= Backlog(Next(fn, s, e)) < Backlog(s)
  {
    var s' := Next(fn, s, e);
    ScansBound(s'.agenda);
    match e
    case Work => WorkLowers(fn, ws, s);
    case ScanDir(entries) => ScanLowers(fn, ws, s, entries);
    case _ =>
  }

  /** So while the file system holds still the watcher makes at most so many steps. */
  lemma {:induction false} WatcherCatchesUp(fn: Fnmatch, ws: seq<Watch>, s: State, es: seq<Step>)
    requires IsRun(fn, s, es) && Inv(fn, ws, s) && forall i :: 0 <= i < |es| ==> OfWatcher(es[i])
    ensures |es| + Backlog(After(fn, s, es)) <= Backlog(s) && 0 <= Backlog(After(fn, s, es))
    decreases |es|
  {
    ScansBound(s.agenda);
    if es != [] {
      assert OfWatcher(es[0]);
      WatcherStepLowers(fn, ws, s, es[0]);
      StepKeepsInv(fn, ws, s, es[0]);
      WatcherCatchesUp(fn, ws, Next(fn, s, es[0]), es[1..]);
    }
  }

  /** And it only stops when nothing is left. */
  lemma WatcherNeverStuck(fn: Fnmatch, s: State) returns (e: Step)
    requires !Quiet(s)
    ensures OfWatcher(e) && Enabled(s, e)
  {
    if s.agenda == [] {
      e := if s.synthetic == [] then Receive else Emit;
    } else if s.agenda[0].Scan? {
      var entries := AnyListing(Kids(s.fs, s.agenda[0].path) + FilesIn(s.fs, s.agenda[0].path));
      e := ScanDir(entries);
    } else {
      e := Work;
    }
  }

  /** So it can always make a step that leaves it less to do. */
  lemma CanCatchUp(fn: Fnmatch, ws: seq<Watch>, s: State) returns (e: Step)
    requires Inv(fn, ws, s) && !Quiet(s)
    ensures OfWatcher(e) && Enabled(s, e) && 0 <= Backlog(Next(fn, s, e)) < Backlog(s)
  {
    e := WatcherNeverStuck(fn, s);
    WatcherStepLowers(fn, ws, s, e);
  }
}
