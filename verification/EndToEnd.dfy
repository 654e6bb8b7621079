/** From the file system to the job table: file system, watcher and daemon in one state.  The pipeline
    pulls: the watcher moves only while the pipeline waits for its next item, and the step that
    yields an item is the step in which the pipeline takes it. */
module EndToEnd {
  import opened Prelude
  import opened Globs
  import opened Ownership
  import Watcher
  import WatcherStartup
  import R = WatcherRace
  import D = Daemon

  datatype World = World(r: R.State, d: D.State)

  /** A step of the file system, of the watcher, or of the rest of the daemon. */
  datatype Step = Disk(r: R.Step) | Watch(r: R.Step) | InDaemon(d: D.Step)

  /** The pipeline waits for the watcher. */
  predicate Pulling(d: D.State) {
    d.running && d.fanout == [] && !D.InSubmit(d)
  }

  ghost predicate Enabled(w: World, e: Step) {
    match e
    case Disk(r) => !R.OfWatcher(r) && R.Enabled(w.r, r)
    case Watch(r) => R.OfWatcher(r) && R.Enabled(w.r, r) && Pulling(w.d)
    case InDaemon(d) => !d.Take? && D.Enabled(w.d, d)
  }

  /** What the daemon does in the step. */
  ghost function DaemonSteps(w: World, e: Step): seq<D.Step> {
    match e
    case Disk(_) => []
    case Watch(r) => (match R.Yielded(w.r, r) case None => [] case Some(y) => [D.Take(y.mask, y.path)])
    case InDaemon(d) => [d]
  }

  /** After a crash the watcher starts anew on the file system as it is. */
  ghost function Next(fn: Fnmatch, u: D.Setup, w: World, e: Step): World
    requires Enabled(w, e) && |w.d.w.pcs| == |u.workers.serves|
  {
    var d := if DaemonSteps(w, e) == [] then w.d else D.Next(fn, u, w.d, DaemonSteps(w, e)[0]);
    match e
    case Disk(r) => World(R.Next(fn, w.r, r), d)
    case Watch(r) => World(R.Next(fn, w.r, r), d)
    case InDaemon(c) => World(if c.Crash? then R.Started(w.r.fs, fn, u.watches) else w.r, d)
  }

  /** Step e leads from w to v. */
  ghost predicate Steps(fn: Fnmatch, u: D.Setup, w: World, e: Step, v: World) {
    Enabled(w, e) && |w.d.w.pcs| == |u.workers.serves| && v == Next(fn, u, w, e)
  }

  ghost predicate IsRun(fn: Fnmatch, u: D.Setup, w: World, es: seq<Step>)
    decreases |es|
  {
    && |w.d.w.pcs| == |u.workers.serves|
    && (es == [] || (Enabled(w, es[0]) && IsRun(fn, u, Next(fn, u, w, es[0]), es[1..])))
  }

  ghost function After(fn: Fnmatch, u: D.Setup, w: World, es: seq<Step>): World
    requires IsRun(fn, u, w, es)
    decreases |es|
  {
    if es == [] then w else After(fn, u, Next(fn, u, w, es[0]), es[1..])
  }

  ghost predicate Runs(fn: Fnmatch, u: D.Setup, w: World, es: seq<Step>, v: World) {
    IsRun(fn, u, w, es) && After(fn, u, w, es) == v
  }

  lemma OneStep(fn: Fnmatch, u: D.Setup, w: World, e: Step, v: World)
    requires Steps(fn, u, w, e, v) && |v.d.w.pcs| == |u.workers.serves|
    ensures Runs(fn, u, w, [e], v)
  {
    assert [e][1..] == [] && Runs(fn, u, v, [], v);
  }

  ghost function Started(fn: Fnmatch, u: D.Setup, fs: Watcher.Fs, clock: real, now: real): World {
    World(R.Started(fs, fn, u.watches), D.Init(u, clock, now))
  }

  ghost predicate Reachable(fn: Fnmatch, u: D.Setup, w: World) {
    exists fs, clock, now, es :: Watcher.IsTree(fs) && Runs(fn, u, Started(fn, u, fs, clock, now), es, w)
  }

  ghost predicate Inv(fn: Fnmatch, u: D.Setup, w: World) {
    R.Inv(fn, u.watches, w.r) && D.Inv(u, w.d)
  }

  lemma StepKeepsInv(fn: Fnmatch, u: D.Setup, w: World, e: Step, v: World)
    requires WatcherStartup.NonNested(u.watches) && Inv(fn, u, w) && Steps(fn, u, w, e, v)
    ensures Inv(fn, u, v)
  {
    if !e.InDaemon? {
      R.StepKeepsInv(fn, u.watches, w.r, e.r);
    } else if e.d.Crash? {
      R.StartedInv(w.r.fs, fn, u.watches);
    }
    if DaemonSteps(w, e) != [] {
      D.StepKeepsInv(fn, u, w.d, DaemonSteps(w, e)[0], v.d);
    }
  }

  lemma {:induction false} RunKeepsInv(fn: Fnmatch, u: D.Setup, w: World, es: seq<Step>, v: World)
    requires WatcherStartup.NonNested(u.watches) && Inv(fn, u, w) && Runs(fn, u, w, es, v)
    ensures Inv(fn, u, v)
    decreases |es|
  {
    if es != [] {
      StepKeepsInv(fn, u, w, es[0], Next(fn, u, w, es[0]));
      RunKeepsInv(fn, u, Next(fn, u, w, es[0]), es[1..], v);
    }
  }

  lemma ReachableInv(fn: Fnmatch, u: D.Setup, w: World)
    requires WatcherStartup.NonNested(u.watches) && Reachable(fn, u, w)
    ensures Inv(fn, u, w)
  {
    var fs, clock, now, es :| Watcher.IsTree(fs) && Runs(fn, u, Started(fn, u, fs, clock, now), es, w);
    R.StartedInv(fs, fn, u.watches);
    D.InitInv(u, clock, now);
    RunKeepsInv(fn, u, Started(fn, u, fs, clock, now), es, w);
  }

  /** The daemon's part of a run. */
  ghost function DaemonPart(fn: Fnmatch, u: D.Setup, w: World, es: seq<Step>): seq<D.Step>
    requires IsRun(fn, u, w, es)
    decreases |es|
  {
    if es == [] then [] else DaemonSteps(w, es[0]) + DaemonPart(fn, u, Next(fn, u, w, es[0]), es[1..])
  }

  /** It is a run of the daemon, so that all that is proved of those holds here. */
  lemma {:induction false} DaemonRuns(fn: Fnmatch, u: D.Setup, w: World, es: seq<Step>, v: World)
    requires Runs(fn, u, w, es, v)
    ensures D.Runs(fn, u, w.d, DaemonPart(fn, u, w, es), v.d)
    decreases |es|
  {
    if es != [] {
      var mid, ds := Next(fn, u, w, es[0]), DaemonPart(fn, u, w, es);
      DaemonRuns(fn, u, mid, es[1..], v);
      if DaemonSteps(w, es[0]) == [] {
        assert ds == DaemonPart(fn, u, mid, es[1..]);
      } else {
        assert ds[1..] == DaemonPart(fn, u, mid, es[1..]) && ds[0] == DaemonSteps(w, es[0])[0];
      }
    }
  }

  /** And its steps are those of the run, with an event for each item the watcher yields. */
  lemma {:induction false} DaemonPartIsOfTheRun(fn: Fnmatch, u: D.Setup, w: World, es: seq<Step>)
    requires IsRun(fn, u, w, es)
    ensures forall d: D.Step :: !d.Take? ==> (d in DaemonPart(fn, u, w, es) <==> InDaemon(d) in es)
    decreases |es|
  {
    if es != [] {
      var mid := Next(fn, u, w, es[0]);
      DaemonPartIsOfTheRun(fn, u, mid, es[1..]);
      assert es == [es[0]] + es[1..];
      forall d: D.Step | !d.Take? ensures d in DaemonSteps(w, es[0]) <==> InDaemon(d) == es[0] {
      }
    }
  }

  /** What the watcher yields in a run, as events of the daemon. */
  ghost function Items(fn: Fnmatch, u: D.Setup, w: World, es: seq<Step>): seq<D.Step>
    requires IsRun(fn, u, w, es)
    decreases |es|
  {
    if es == [] then []
    else
      (if es[0].Watch? && R.Yielded(w.r, es[0].r).Some? then
         var y := R.Yielded(w.r, es[0].r).value;
         [D.Take(y.mask, y.path)]
       else [])
      + Items(fn, u, Next(fn, u, w, es[0]), es[1..])
  }

  function TakesOf(ds: seq<D.Step>): seq<D.Step> {
    if ds == [] then [] else (if ds[0].Take? then [ds[0]] else []) + TakesOf(ds[1..])
  }

  /** The events the pipeline takes are the items the watcher yields, all of them and in order. */
  lemma {:induction false} EventsAreTheItems(fn: Fnmatch, u: D.Setup, w: World, es: seq<Step>)
    requires IsRun(fn, u, w, es)
    ensures TakesOf(DaemonPart(fn, u, w, es)) == Items(fn, u, w, es)
    decreases |es|
  {
    if es != [] {
      var mid, ds := Next(fn, u, w, es[0]), DaemonSteps(w, es[0]);
      EventsAreTheItems(fn, u, mid, es[1..]);
      if ds == [] {
        assert DaemonPart(fn, u, w, es) == DaemonPart(fn, u, mid, es[1..]);
      } else {
        assert ds == [ds[0]] && DaemonPart(fn, u, w, es)[1..] == DaemonPart(fn, u, mid, es[1..]);
      }
    }
  }

  // ---------------------------------------------------------------- from the file to the job

  /** A report of a written file passes the filter as an event of its watch, whatever its mask. */
  lemma ReportPasses(fn: Fnmatch, u: D.Setup, y: Watcher.Emission, i: nat, f: Path)
    requires WatcherStartup.NonNested(u.watches) && i < |u.watches|
    requires R.Unignored(fn, u.watches[i], f) && f != u.watches[i].path && R.Reports(y, u.watches[i], f)
    ensures D.Passes(fn, u, i, y.mask, y.path)
  {
    var ws := u.watches;
    forall j, k | 0 <= j < k < |ws| ensures ws[j].path != ws[k].path {
      assert !(ws[j].path <= ws[k].path);
    }
    forall j | 0 <= j < |ws| && ws[j].path <= f ensures j == i {
      Watcher.PrefixesCompare(ws[i].path, ws[j].path, f);
      Watcher.PrefixesCompare(ws[j].path, ws[i].path, f);
    }
    assert f[..|f|] == f;
  }

  /** File f below the root of watch i, which is watched. */
  ghost predicate Concerned(fn: Fnmatch, u: D.Setup, w: World, i: nat, f: Path) {
    && WatcherStartup.NonNested(u.watches) && i < |u.watches|
    && f != u.watches[i].path && R.Unignored(fn, u.watches[i], f)
    && u.watches[i].path in w.r.watched && w.r.watched[u.watches[i].path] == u.watches[i]
  }

  lemma ConcernedStays(fn: Fnmatch, u: D.Setup, w: World, e: Step, v: World, i: nat, f: Path)
    requires Inv(fn, u, w) && Steps(fn, u, w, e, v) && Concerned(fn, u, w, i, f)
    ensures Concerned(fn, u, v, i, f)
  {
    if !e.InDaemon? {
      R.Grows(fn, w.r, e.r);
    } else if e.d.Crash? {
      assert R.WatchOk(u.watches, w.r, u.watches[i].path);
      R.RootIsWatched(w.r.fs, fn, u.watches, u.watches[i]);
    }
  }

  lemma {:induction false} RunKeepsConcerned(fn: Fnmatch, u: D.Setup, w: World, es: seq<Step>, v: World, i: nat,
                                             f: Path)
    requires Inv(fn, u, w) && Runs(fn, u, w, es, v) && Concerned(fn, u, w, i, f)
    ensures Inv(fn, u, v) && Concerned(fn, u, v, i, f)
    decreases |es|
  {
    if es != [] {
      StepKeepsInv(fn, u, w, es[0], Next(fn, u, w, es[0]));
      ConcernedStays(fn, u, w, es[0], Next(fn, u, w, es[0]), i, f);
      RunKeepsConcerned(fn, u, Next(fn, u, w, es[0]), es[1..], v, i, f);
    }
  }

  /** The step is the daemon's event for which it owes o. */
  ghost predicate Incurs(fn: Fnmatch, u: D.Setup, w: World, e: Step, o: D.Owed) {
    DaemonSteps(w, e) != [] && D.Incurs(fn, u, w.d, DaemonSteps(w, e)[0], o)
  }

  /** The pipeline takes a report of f. */
  predicate TakesReport(w: World, e: Step, f: Path) {
    e.Watch? && f in R.Reported(w.r, e.r)
  }

  /** This makes every binding's purge owed and due for submission. */
  lemma ReportIsTaken(fn: Fnmatch, u: D.Setup, w: World, e: Step, v: World, i: nat, j: nat, f: Path)
    requires Inv(fn, u, w) && Steps(fn, u, w, e, v) && Concerned(fn, u, w, i, f) && j < |u.watches[i].bindings|
    requires TakesReport(w, e, f)
    ensures var o := D.Due(u, w.d, i, j, f); Incurs(fn, u, w, e, o) && D.Dated(v.d, o) && D.InFanout(v.d, o)
  {
    var y := R.Yielded(w.r, e.r).value;
    R.YieldedIsRooted(fn, u.watches, w.r, e.r, u.watches[i]);
    ReportPasses(fn, u, y, i, f);
    D.EventOwesEveryBinding(fn, u, w.d, y.mask, y.path, v.d, i, j);
    D.IncurredIsPlaced(fn, u, w.d, DaemonSteps(w, e)[0], v.d, D.Due(u, w.d, i, j, f));
  }

  ghost predicate Removes(e: Step, f: Path) {
    e.Disk? && R.Removes(e.r, f)
  }

  predicate Crashes(e: Step) {
    e.InDaemon? && e.d.Crash?
  }

  predicate Harmless(e: Step) {
    e.InDaemon? ==> D.Harmless(e.d)
  }

  /** The state before step k. */
  ghost function At(fn: Fnmatch, u: D.Setup, w: World, es: seq<Step>, k: nat): World
    requires IsRun(fn, u, w, es) && k <= |es|
    decreases |es|
  {
    if k == 0 then w else At(fn, u, Next(fn, u, w, es[0]), es[1..], k - 1)
  }

  /** The run comes by its k-th state. */
  lemma {:induction false} RunAt(fn: Fnmatch, u: D.Setup, w: World, es: seq<Step>, t: World, k: nat)
    requires Runs(fn, u, w, es, t) && k <= |es|
    ensures Runs(fn, u, At(fn, u, w, es, k), es[k..], t) && Runs(fn, u, w, es[..k], At(fn, u, w, es, k))
    ensures k < |es| ==> Steps(fn, u, At(fn, u, w, es, k), es[k], At(fn, u, w, es, k + 1))
    decreases k
  {
    if k == 0 {
      assert es[0..] == es && es[..0] == [];
      assert es != [] ==> At(fn, u, Next(fn, u, w, es[0]), es[1..], 0) == Next(fn, u, w, es[0]);
    } else {
      RunAt(fn, u, Next(fn, u, w, es[0]), es[1..], t, k - 1);
      assert es[1..][k - 1..] == es[k..] && es[..k][1..] == es[1..][..k - 1];
    }
  }

  // ---------------------------------------------------------------- up to the report

  /** What can become of a file that is due: a report of it is taken, it is removed, or the daemon
      crashes. */
  ghost predicate Ends(w: World, e: Step, f: Path) {
    f in w.r.due && (TakesReport(w, e, f) || Removes(e, f) || Crashes(e))
  }

  lemma DueStep(fn: Fnmatch, u: D.Setup, w: World, e: Step, v: World, f: Path)
    requires Steps(fn, u, w, e, v) && f in w.r.due
    ensures f in v.r.due || Ends(w, e, f)
  {
    if !e.InDaemon? && !Removes(e, f) {
      assert !R.Removes(e.r, f);
      R.DueUnlessReported(fn, w.r, e.r, f);
    }
  }

  /** A file that is due stays so, until one of these happens. */
  lemma {:induction false} DueUntilItEnds(fn: Fnmatch, u: D.Setup, w: World, es: seq<Step>, t: World, f: Path)
      returns (k: nat)
    requires f in w.r.due && Runs(fn, u, w, es, t)
    ensures k <= |es|
    ensures if k == |es| then f in t.r.due else Ends(At(fn, u, w, es, k), es[k], f)
    decreases |es|
  {
    if es == [] || Ends(w, es[0], f) {
      k := 0;
    } else {
      var v := Next(fn, u, w, es[0]);
      DueStep(fn, u, w, es[0], v, f);
      k := DueUntilItEnds(fn, u, v, es[1..], t, f);
      k := k + 1;
    }
  }

  // ---------------------------------------------------------------- results

  /** In a reachable w, f is written; then the run es leads to t. */
  ghost predicate Written(fn: Fnmatch, u: D.Setup, w: World, f: Path, mask: string, v: World, es: seq<Step>, t: World) {
    Reachable(fn, u, w) && Steps(fn, u, w, Disk(R.Finalise(f, mask)), v) && Runs(fn, u, v, es, t)
  }

  lemma WrittenIsDue(fn: Fnmatch, u: D.Setup, w: World, f: Path, mask: string, v: World, i: nat)
    requires Concerned(fn, u, w, i, f) && Reachable(fn, u, w) && Steps(fn, u, w, Disk(R.Finalise(f, mask)), v)
    ensures Inv(fn, u, w) && Inv(fn, u, v) && Concerned(fn, u, v, i, f) && f in v.r.due
  {
    ReachableInv(fn, u, w);
    StepKeepsInv(fn, u, w, Disk(R.Finalise(f, mask)), v);
    ConcernedStays(fn, u, w, Disk(R.Finalise(f, mask)), v, i, f);
  }

  /** In the further run the daemon lost the purge. */
  ghost predicate Lost(fn: Fnmatch, u: D.Setup, w: World, es: seq<Step>, o: D.Owed) {
    IsRun(fn, u, w, es) && D.Lost(fn, u, w.d, DaemonPart(fn, u, w, es), o)
  }

  /** In step k of the run the pipeline takes a report of f, and therewith owes the purge to the j-th
      binding; in the end the purge has a place, or it was lost later; and a finished job that
      carries it was decided after the event. */
  ghost predicate OwedIn(fn: Fnmatch, u: D.Setup, v: World, es: seq<Step>, t: World, k: nat, i: nat, j: nat, f: Path)
    requires IsRun(fn, u, v, es) && k < |es|
    requires i < |u.watches| && j < |u.watches[i].bindings| && u.watches[i].path <= f
  {
    var o := D.Due(u, At(fn, u, v, es, k).d, i, j, f);
    && TakesReport(At(fn, u, v, es, k), es[k], f) && Incurs(fn, u, At(fn, u, v, es, k), es[k], o)
    && (D.Placed(t.d, o) || Lost(fn, u, At(fn, u, v, es, k + 1), es[k + 1..], o))
    && forall id :: D.Carries(t.d.w.table, id, o) ==> D.Answered(t.d, id, o)
  }

  lemma ReportIsOwed(fn: Fnmatch, u: D.Setup, v: World, es: seq<Step>, t: World, k: nat, i: nat, j: nat, f: Path)
    requires Runs(fn, u, v, es, t) && k < |es| && TakesReport(At(fn, u, v, es, k), es[k], f)
    requires Inv(fn, u, At(fn, u, v, es, k)) && Concerned(fn, u, At(fn, u, v, es, k), i, f)
    requires j < |u.watches[i].bindings|
    ensures OwedIn(fn, u, v, es, t, k, i, j, f)
  {
    var a, b := At(fn, u, v, es, k), At(fn, u, v, es, k + 1);
    var o := D.Due(u, a.d, i, j, f);
    RunAt(fn, u, v, es, t, k);
    RunAt(fn, u, v, es, t, k + 1);
    StepKeepsInv(fn, u, a, es[k], b);
    ReportIsTaken(fn, u, a, es[k], b, i, j, f);
    DaemonRuns(fn, u, b, es[k + 1..], t);
    D.PlacedOrLost(fn, u, b.d, DaemonPart(fn, u, b, es[k + 1..]), t.d, o);
    forall id | D.Carries(t.d.w.table, id, o) ensures D.Answered(t.d, id, o) {
      D.CarriedIsAnswered(u, t.d, o, id);
    }
  }

  /** A file written anywhere in a watched tree, also into a directory the watcher has not met yet, and
      whatever goes on and fails: by the time the watcher has nothing left to do, in some step since
      the write the pipeline took a report of the file, and owes its purge to every binding of the
      watch for this event; or, while no report had been taken yet, the file was removed or the
      daemon crashed. */
  lemma WrittenFileIsOwedToEveryBinding(fn: Fnmatch, u: D.Setup, w: World, f: Path, mask: string, v: World,
                                        es: seq<Step>, t: World, i: nat) returns (k: nat)
    requires Concerned(fn, u, w, i, f) && Written(fn, u, w, f, mask, v, es, t) && R.Quiet(t.r)
    ensures k < |es| && f in At(fn, u, v, es, k).r.due
    ensures Removes(es[k], f) || Crashes(es[k])
         || forall j: nat :: j < |u.watches[i].bindings| ==> OwedIn(fn, u, v, es, t, k, i, j, f)
  {
    WrittenIsDue(fn, u, w, f, mask, v, i);
    k := DueUntilItEnds(fn, u, v, es, t, f);
    RunAt(fn, u, v, es, t, k);
    RunKeepsConcerned(fn, u, v, es[..k], At(fn, u, v, es, k), i, f);
    if k == |es| {
      R.QuietMeansReported(fn, u.watches, t.r, u.watches[i], f);
    }
    if TakesReport(At(fn, u, v, es, k), es[k], f) {
      forall j: nat | j < |u.watches[i].bindings| ensures OwedIn(fn, u, v, es, t, k, i, j, f) {
        ReportIsOwed(fn, u, v, es, t, k, i, j, f);
      }
    }
  }

  /** f is not removed, the daemon neither crashes nor is stopped, and no enqueue fails. */
  ghost predicate Calm(es: seq<Step>, f: Path) {
    forall k :: 0 <= k < |es| ==> !Removes(es[k], f) && Harmless(es[k])
  }

  lemma CalmLosesNothing(fn: Fnmatch, u: D.Setup, w: World, es: seq<Step>, o: D.Owed)
    requires IsRun(fn, u, w, es) && forall k :: 0 <= k < |es| ==> Harmless(es[k])
    ensures !Lost(fn, u, w, es, o)
  {
    var ds := DaemonPart(fn, u, w, es);
    DaemonPartIsOfTheRun(fn, u, w, es);
    forall k | 0 <= k < |ds| ensures D.Harmless(ds[k]) {
      assert ds[k] in ds;
    }
  }

  lemma CalmLosesNothingFrom(fn: Fnmatch, u: D.Setup, v: World, es: seq<Step>, t: World, k: nat, o: D.Owed)
    requires Runs(fn, u, v, es, t) && k <= |es| && forall m :: 0 <= m < |es| ==> Harmless(es[m])
    ensures !Lost(fn, u, At(fn, u, v, es, k), es[k..], o)
  {
    RunAt(fn, u, v, es, t, k);
    CalmLosesNothing(fn, u, At(fn, u, v, es, k), es[k..], o);
  }

  lemma CalmKeepsPlace(fn: Fnmatch, u: D.Setup, v: World, es: seq<Step>, t: World, k: nat, i: nat, j: nat, f: Path)
    requires Runs(fn, u, v, es, t) && Calm(es, f) && k < |es|
    requires i < |u.watches| && j < |u.watches[i].bindings| && u.watches[i].path <= f
    requires OwedIn(fn, u, v, es, t, k, i, j, f)
    ensures D.Placed(t.d, D.Due(u, At(fn, u, v, es, k).d, i, j, f))
  {
    CalmLosesNothingFrom(fn, u, v, es, t, k + 1, D.Due(u, At(fn, u, v, es, k).d, i, j, f));
  }

  /** A job newer than an event is newer than all before it. */
  lemma NewerJob(a: D.State, d: D.State, owed: D.Owed, o: D.Owed)
    requires D.Dated(a, o) && owed.since == a.w.table.lastId && owed.cdn == o.cdn && owed.url == o.url
    requires D.Placed(d, owed) && D.Drained(d)
    ensures D.HasJob(d, o)
  {
    var id :| D.Carries(d.w.table, id, owed);
    assert D.Carries(d.w.table, id, o);
  }

  lemma StaysDated(fn: Fnmatch, u: D.Setup, v: World, es: seq<Step>, t: World, k: nat, o: D.Owed)
    requires Inv(fn, u, v) && D.Dated(v.d, o) && Runs(fn, u, v, es, t) && k <= |es|
    ensures D.Dated(At(fn, u, v, es, k).d, o) && D.Dated(t.d, o) && D.Inv(u, t.d)
  {
    var a := At(fn, u, v, es, k);
    RunAt(fn, u, v, es, t, k);
    DaemonRuns(fn, u, v, es[..k], a);
    D.DatedToTheEnd(fn, u, v.d, DaemonPart(fn, u, v, es[..k]), a.d, o);
    DaemonRuns(fn, u, v, es, t);
    D.DatedToTheEnd(fn, u, v.d, DaemonPart(fn, u, v, es), t.d, o);
  }

  /** If nothing goes wrong: once the watcher is idle and pipeline and batcher are empty every binding has
      a job newer than the write that carries the file's URL, and such a job, when finished, was
      decided by a provider call after the write. */
  lemma WrittenFileGetsItsJobs(fn: Fnmatch, u: D.Setup, w: World, f: Path, mask: string, v: World, es: seq<Step>,
                               t: World, i: nat, j: nat)
    requires Concerned(fn, u, w, i, f) && Written(fn, u, w, f, mask, v, es, t) && j < |u.watches[i].bindings|
    requires Calm(es, f) && R.Quiet(t.r) && D.Drained(t.d)
    ensures var o := D.Due(u, w.d, i, j, f);
      D.HasJob(t.d, o) && forall id :: D.Carries(t.d.w.table, id, o) ==> D.Answered(t.d, id, o)
  {
    var k := WrittenFileIsOwedToEveryBinding(fn, u, w, f, mask, v, es, t, i);
    assert !Removes(es[k], f) && Harmless(es[k]);
    assert OwedIn(fn, u, v, es, t, k, i, j, f);
    var a, o := At(fn, u, v, es, k), D.Due(u, w.d, i, j, f);
    CalmKeepsPlace(fn, u, v, es, t, k, i, j, f);
    WrittenIsDue(fn, u, w, f, mask, v, i);
    StaysDated(fn, u, v, es, t, k, o);
    NewerJob(a.d, t.d, D.Due(u, a.d, i, j, f), o);
    forall id | D.Carries(t.d.w.table, id, o) ensures D.Answered(t.d, id, o) {
      D.CarriedIsAnswered(u, t.d, o, id);
    }
  }

  /** What a crash costs before the report is taken: the watcher starts anew and knows nothing of the
      file.  Everything is idle, and no binding's purge has a place. */
  lemma CrashForgetsUnreportedFile(fn: Fnmatch, u: D.Setup, fs: Watcher.Fs, clock: real, now: real, f: Path,
                                   mask: string, i: nat)
    requires R.Enabled(R.Started(fs, fn, u.watches), R.Finalise(f, mask))
    requires i < |u.watches| && u.watches[i].path <= f
    ensures var w, es := Started(fn, u, fs, clock, now), [Disk(R.Finalise(f, mask)), InDaemon(D.Crash(clock))];
      && IsRun(fn, u, w, es) && Ends(At(fn, u, w, es, 1), es[1], f)
      && var t := After(fn, u, w, es);
         && R.Quiet(t.r) && D.Drained(t.d) && f in t.r.fs.files
         && forall j: nat :: j < |u.watches[i].bindings| ==> !D.Placed(t.d, D.Due(u, w.d, i, j, f))
  {
    var w, es := Started(fn, u, fs, clock, now), [Disk(R.Finalise(f, mask)), InDaemon(D.Crash(clock))];
    var v := Next(fn, u, w, es[0]);
    OneStep(fn, u, v, es[1], Next(fn, u, v, es[1]));
    assert es[1..] == [es[1]];
    assert At(fn, u, w, es, 1) == At(fn, u, v, es[1..], 0) == v;
  }
}
