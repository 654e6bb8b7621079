/** Everything can come to an end: from every state of a running daemon without dead tasks some run, with
    no failure and the file system at rest, leaves watcher, pipeline and batcher idle and all jobs
    finished. */
module EndToEndProgress {
  import opened Globs
  import opened Ownership
  import opened EndToEnd
  import Watcher
  import WatcherStartup
  import R = WatcherRace
  import RC = WatcherCatchUp
  import D = Daemon
  import DP = DaemonProgress
  import opened JobQueue
  import BT = BatcherTiming
  import W = Workers
  import WP = WorkerProgress

  ghost predicate Fit(fn: Fnmatch, u: D.Setup, w: World) {
    WatcherStartup.NonNested(u.watches) && Inv(fn, u, w) && DP.Fit(u, w.d)
  }

  lemma StepKeepsFit(fn: Fnmatch, u: D.Setup, w: World, e: Step, v: World)
    requires DP.Manned(u) && Fit(fn, u, w) && Steps(fn, u, w, e, v)
    ensures Fit(fn, u, v)
  {
    StepKeepsInv(fn, u, w, e, v);
    if DaemonSteps(w, e) != [] {
      DP.StepKeepsFit(fn, u, w.d, DaemonSteps(w, e)[0], v.d);
    }
  }

  lemma {:induction false} RunKeepsFit(fn: Fnmatch, u: D.Setup, w: World, es: seq<Step>, v: World)
    requires DP.Manned(u) && Fit(fn, u, w) && Runs(fn, u, w, es, v)
    ensures Fit(fn, u, v)
    decreases |es|
  {
    if es != [] {
      StepKeepsFit(fn, u, w, es[0], Next(fn, u, w, es[0]));
      RunKeepsFit(fn, u, Next(fn, u, w, es[0]), es[1..], v);
    }
  }

  lemma ReachableIsFit(fn: Fnmatch, u: D.Setup, w: World)
    requires DP.Manned(u) && WatcherStartup.NonNested(u.watches) && Reachable(fn, u, w)
    ensures Fit(fn, u, w)
  {
    var fs, clock, now, es :| Watcher.IsTree(fs) && Runs(fn, u, Started(fn, u, fs, clock, now), es, w);
    R.StartedInv(fs, fn, u.watches);
    DP.InitIsFit(u, clock, now);
    RunKeepsFit(fn, u, Started(fn, u, fs, clock, now), es, w);
  }

  /** No failure, and the file system at rest. */
  ghost predicate AtRest(es: seq<Step>) {
    forall k :: 0 <= k < |es| ==> !es[k].Disk? && Harmless(es[k])
  }

  function OfDaemon(ds: seq<D.Step>): (es: seq<Step>)
    ensures |es| == |ds| && forall k :: 0 <= k < |es| ==> es[k] == InDaemon(ds[k])
  {
    seq(|ds|, k requires 0 <= k < |ds| => InDaemon(ds[k]))
  }

  lemma {:induction false} DaemonAlone(fn: Fnmatch, u: D.Setup, w: World, ds: seq<D.Step>, d: D.State)
    requires D.Runs(fn, u, w.d, ds, d) && DP.Finishing(ds)
    ensures Runs(fn, u, w, OfDaemon(ds), World(w.r, d)) && AtRest(OfDaemon(ds))
    decreases |ds|
  {
    if ds != [] {
      assert D.Harmless(ds[0]) && !ds[0].Take?;
      var v := World(w.r, D.Next(fn, u, w.d, ds[0]));
      DaemonAlone(fn, u, v, ds[1..], d);
      assert OfDaemon(ds)[1..] == OfDaemon(ds[1..]);
    }
  }

  lemma {:induction false} RunsJoin(fn: Fnmatch, u: D.Setup, w: World, es: seq<Step>, v: World, more: seq<Step>,
                                    t: World)
    requires Runs(fn, u, w, es, v) && Runs(fn, u, v, more, t) && AtRest(es) && AtRest(more)
    ensures Runs(fn, u, w, es + more, t) && AtRest(es + more)
    decreases |es|
  {
    if es == [] {
      assert es + more == more;
    } else {
      assert !es[0].Disk? && Harmless(es[0]);
      RunsJoin(fn, u, Next(fn, u, w, es[0]), es[1..], v, more, t);
      assert (es + more)[1..] == es[1..] + more;
    }
  }

  ghost predicate Alive(d: D.State) {
    d.running && BT.NobodyDead(d.b)
  }

  /** What is left to do for watcher, pipeline and batcher shrinks, in this order. */
  ghost predicate Less(v: World, w: World) {
    || 0 <= RC.Backlog(v.r) < RC.Backlog(w.r)
    || (v.r == w.r && |v.d.fanout| < |w.d.fanout|)
    || (v.r == w.r && v.d.fanout == w.d.fanout && BT.Pending(v.d.b) < BT.Pending(w.d.b))
  }

  /** The run es leads from w nearer to the end. */
  ghost predicate Nearer(fn: Fnmatch, u: D.Setup, w: World, es: seq<Step>, v: World) {
    && Runs(fn, u, w, es, v) && AtRest(es) && Alive(v.d) && Less(v, w)
    && DP.OnlyEnqueues(w.d.w.table, v.d.w.table)
  }

  lemma WatcherRound(fn: Fnmatch, u: D.Setup, w: World) returns (es: seq<Step>, v: World)
    requires R.Inv(fn, u.watches, w.r) && |w.d.w.pcs| == |u.workers.serves| && Alive(w.d) && !R.Quiet(w.r)
    requires w.d.b.lock.Free? && w.d.fanout == []
    ensures Nearer(fn, u, w, es, v)
  {
    var e := RC.CanCatchUp(fn, u.watches, w.r);
    v := WatcherMoves(fn, u, w, e);
    es := [Step.Watch(e)];
    OneStep(fn, u, w, Step.Watch(e), v);
  }

  lemma WatcherMoves(fn: Fnmatch, u: D.Setup, w: World, e: R.Step) returns (v: World)
    requires |w.d.w.pcs| == |u.workers.serves| && R.OfWatcher(e) && R.Enabled(w.r, e) && Pulling(w.d)
    ensures Steps(fn, u, w, Step.Watch(e), v) && v.r == R.Next(fn, w.r, e)
    ensures v.d.b == w.d.b && v.d.w == w.d.w && v.d.running
  {
    v := Next(fn, u, w, Step.Watch(e));
  }

  lemma SubmitRound(fn: Fnmatch, u: D.Setup, w: World) returns (es: seq<Step>, v: World)
    requires |w.d.w.pcs| == |u.workers.serves| && Alive(w.d) && w.d.b.lock.Free? && w.d.fanout != []
    ensures Nearer(fn, u, w, es, v)
  {
    var d := DP.SubmitRound(fn, u, w.d);
    es, v := [InDaemon(D.SubmitNext)], World(w.r, d);
    OneStep(fn, u, w, es[0], v);
  }

  lemma BatcherRound(fn: Fnmatch, u: D.Setup, w: World) returns (es: seq<Step>, v: World)
    requires D.Inv(u, w.d) && Alive(w.d) && !BT.Empty(w.d.b)
    ensures Nearer(fn, u, w, es, v)
  {
    var ds, d := DP.FlushRound(fn, u, w.d);
    DaemonAlone(fn, u, w, ds, d);
    es, v := OfDaemon(ds), World(w.r, d);
  }

  lemma Round(fn: Fnmatch, u: D.Setup, w: World) returns (es: seq<Step>, v: World)
    requires DP.Manned(u) && Fit(fn, u, w) && Alive(w.d) && !(R.Quiet(w.r) && D.Drained(w.d))
    ensures Nearer(fn, u, w, es, v) && Fit(fn, u, v)
  {
    if w.d.b.lock.Free? && w.d.fanout != [] {
      es, v := SubmitRound(fn, u, w);
    } else if w.d.b.lock.Free? && !R.Quiet(w.r) {
      es, v := WatcherRound(fn, u, w);
    } else {
      es, v := BatcherRound(fn, u, w);
    }
    RunKeepsFit(fn, u, w, es, v);
  }

  lemma NearerJoins(fn: Fnmatch, u: D.Setup, w: World, es: seq<Step>, v: World, more: seq<Step>, t: World)
    requires Nearer(fn, u, w, es, v) && Runs(fn, u, v, more, t) && AtRest(more)
    requires DP.OnlyEnqueues(v.d.w.table, t.d.w.table)
    ensures Runs(fn, u, w, es + more, t) && AtRest(es + more) && DP.OnlyEnqueues(w.d.w.table, t.d.w.table)
  {
    RunsJoin(fn, u, w, es, v, more, t);
  }

  lemma {:induction false} CanSettle(fn: Fnmatch, u: D.Setup, w: World) returns (es: seq<Step>, t: World)
    requires DP.Manned(u) && Fit(fn, u, w) && Alive(w.d)
    ensures Runs(fn, u, w, es, t) && AtRest(es) && Fit(fn, u, t) && Alive(t.d) && R.Quiet(t.r) && D.Drained(t.d)
    ensures DP.OnlyEnqueues(w.d.w.table, t.d.w.table)
    decreases RC.Backlog(w.r), |w.d.fanout|, BT.Pending(w.d.b)
  {
    if R.Quiet(w.r) && D.Drained(w.d) {
      es, t := [], w;
    } else {
      var v, more;
      es, v := Round(fn, u, w);
      more, t := CanSettle(fn, u, v);
      NearerJoins(fn, u, w, es, v, more, t);
      es := es + more;
    }
  }

  lemma CanFinish(fn: Fnmatch, u: D.Setup, w: World) returns (es: seq<Step>, t: World)
    requires DP.Manned(u) && Fit(fn, u, w) && Alive(w.d)
    ensures Runs(fn, u, w, es, t) && AtRest(es)
    ensures R.Quiet(t.r) && D.Drained(t.d) && WP.AllFinished(t.d.w.table)
    ensures forall id :: id in t.d.w.table.rows && (id !in w.d.w.table.rows || Claimable(w.d.w.table, id)) ==>
              t.d.w.table.rows[id].status == Done
  {
    var v;
    es, v := CanSettle(fn, u, w);
    var ds, d := DP.JobsCanBeFinished(fn, u, v.d);
    DaemonAlone(fn, u, v, ds, d);
    t := World(v.r, d);
    RunsJoin(fn, u, w, es, v, OfDaemon(ds), t);
    es := es + OfDaemon(ds);
    forall id | id in t.d.w.table.rows && (id !in w.d.w.table.rows || Claimable(w.d.w.table, id))
      ensures t.d.w.table.rows[id].status == Done
    {
      assert Claimable(v.d.w.table, id);
    }
  }

  /** From every reachable state in which the daemon runs and no debounce task is dead some run, with no
      failure and the file system at rest, empties watcher, pipeline and batcher and finishes all
      jobs; those that were pending, and those that come of it, are done. */
  lemma EverythingCanBeFinished(fn: Fnmatch, u: D.Setup, w: World) returns (es: seq<Step>, t: World)
    requires DP.Manned(u) && WatcherStartup.NonNested(u.watches) && Reachable(fn, u, w) && Alive(w.d)
    ensures Runs(fn, u, w, es, t) && AtRest(es)
    ensures R.Quiet(t.r) && D.Drained(t.d) && WP.AllFinished(t.d.w.table)
    ensures forall id :: id in t.d.w.table.rows && (id !in w.d.w.table.rows || Claimable(w.d.w.table, id)) ==>
              t.d.w.table.rows[id].status == Done
  {
    ReachableIsFit(fn, u, w);
    es, t := CanFinish(fn, u, w);
  }

  /** So whatever happened before, a file written while the daemon runs and no debounce task is dead can
      be purged everywhere: some run, with no failure and no refusal, leads to where every binding of
      its watch has a job newer than the write that carries its URL, and each such job is done, by a
      provider call after the write that said ok. */
  lemma WrittenFileCanBePurged(fn: Fnmatch, u: D.Setup, w: World, f: Path, mask: string, v: World, i: nat)
      returns (es: seq<Step>, t: World)
    requires DP.Manned(u) && Concerned(fn, u, w, i, f) && Reachable(fn, u, w) && Alive(w.d)
    requires Steps(fn, u, w, Disk(R.Finalise(f, mask)), v)
    ensures Runs(fn, u, v, es, t) && AtRest(es)
    ensures forall j: nat :: j < |u.watches[i].bindings| ==> PurgedFor(t.d, D.Due(u, w.d, i, j, f))
  {
    ReachableIsFit(fn, u, w);
    StepKeepsFit(fn, u, w, Disk(R.Finalise(f, mask)), v);
    es, t := CanFinish(fn, u, v);
    forall j: nat | j < |u.watches[i].bindings| ensures PurgedFor(t.d, D.Due(u, w.d, i, j, f)) {
      WrittenFileGetsItsJobs(fn, u, w, f, mask, v, es, t, i, j);
      DoneIsPurged(w.d, t.d, D.Due(u, w.d, i, j, f));
    }
  }

  /** There is a job for what is owed, and every such job is done by an ok after the event. */
  ghost predicate PurgedFor(d: D.State, o: D.Owed) {
    D.HasJob(d, o) && forall id :: D.Carries(d.w.table, id, o) ==> DoneBy(d, id, o)
  }

  ghost predicate DoneBy(d: D.State, id: nat, o: D.Owed)
    requires id in d.w.table.rows
  {
    && d.w.table.rows[id].status == Done
    && exists k :: o.calls <= k < |d.w.calls| && W.Purged(d.w.calls[k], id, d.w.table.rows[id].urls)
  }

  lemma DoneIsPurged(c: D.State, d: D.State, o: D.Owed)
    requires WellFormed(c.w.table) && o.since == c.w.table.lastId && D.HasJob(d, o)
    requires forall id :: D.Carries(d.w.table, id, o) ==> D.Answered(d, id, o)
    requires forall id :: id in d.w.table.rows && id !in c.w.table.rows ==> d.w.table.rows[id].status == Done
    ensures PurgedFor(d, o)
  {
    forall id | D.Carries(d.w.table, id, o) ensures DoneBy(d, id, o) {
      assert D.Answered(d, id, o);
    }
  }
}
