/** The daemon can finish what it has begun: buffers can be flushed, the lock let go, jobs worked off. */
module DaemonProgress {
  import opened Prelude
  import opened Globs
  import opened Ownership
  import opened JobQueue
  import opened Daemon
  import B = Batcher
  import BR = BatcherRuns
  import BT = BatcherTiming
  import W = Workers
  import WR = WorkerRuns
  import WP = WorkerProgress

  /** A worker for every CDN that occurs in a binding, as the configuration demands, and only one. */
  ghost predicate Manned(u: Setup) {
    && W.OnePerCdn(u.workers)
    && forall i, j :: 0 <= i < |u.watches| && 0 <= j < |u.watches[i].bindings| ==>
         u.watches[i].bindings[j].cdn in u.workers.serves
  }

  /** Every purge under way is for a CDN with a worker. */
  ghost predicate Served(u: Setup, s: State) {
    && (forall k :: 0 <= k < |s.fanout| ==> s.fanout[k].cdn in u.workers.serves)
    && (forall c :: c in s.b.cells ==> c in u.workers.serves)
    && WP.AllServed(u.workers, s.w.table)
  }

  ghost predicate Fit(u: Setup, s: State) {
    Inv(u, s) && WR.SoloInv(u.workers, s.w) && Served(u, s)
  }

  lemma {:induction false} ByRootIsOfAWatch(ws: seq<Watch>, root: Path)
    requires root in ByRoot(ws)
    ensures exists i :: 0 <= i < |ws| && ws[i].bindings == ByRoot(ws)[root]
  {
    var n := |ws| - 1;
    if ws[n].path != root {
      ByRootIsOfAWatch(ws[..n], root);
      var i :| 0 <= i < n && ws[..n][i].bindings == ByRoot(ws[..n])[root];
      assert ws[i] == ws[..n][i];
    }
  }

  lemma TargetsAreServed(fn: Fnmatch, u: Setup, mask: string, p: Path)
    requires Manned(u)
    ensures forall t :: t in Targets(fn, u.watches, mask, p) ==> t.cdn in u.workers.serves
  {
    var v := Verdict(fn, SortByDepth(u.watches), mask, p);
    if v.Some? && v.value.watchRoot in ByRoot(u.watches) {
      ByRootIsOfAWatch(u.watches, v.value.watchRoot);
    }
  }

  lemma RowsStayServed(u: Setup, s: W.State, e: W.Event)
    requires W.Inv(u.workers, s) && W.Enabled(s, e) && WP.AllServed(u.workers, s.table)
    requires e.Enqueue? ==> e.cdn in u.workers.serves
    ensures WP.AllServed(u.workers, W.Next(u.workers, s, e).table)
  {
    var t := W.Next(u.workers, s, e);
    W.StepKeepsInv(u.workers, s, e);
    if e.Update? || e.Settle? {
      assert W.PcOk(u.workers, s, e.w);
    }
    forall i | i in t.table.rows ensures WP.Served(u.workers, t.table, i) {
      if i in s.table.rows {
        assert WP.Served(u.workers, s.table, i) && SamePurge(s.table, t.table, i);
      }
    }
  }

  lemma WorkersStayFit(fn: Fnmatch, u: Setup, s: State, e: Step, t: State)
    requires Steps(fn, u, s, e, t) && Fit(u, s)
    ensures WR.SoloInv(u.workers, t.w) && WP.AllServed(u.workers, t.w.table)
  {
    match e
    case Enqueue(cdn, list) =>
      WR.StepKeepsSolo(u.workers, s.w, W.Enqueue(cdn, list));
      RowsStayServed(u, s.w, W.Enqueue(cdn, list));
    case InWorkers(w) =>
      WR.StepKeepsSolo(u.workers, s.w, w);
      RowsStayServed(u, s.w, w);
    case Crash(_) =>
      WR.StepKeepsSolo(u.workers, s.w, W.Crash);
      RowsStayServed(u, s.w, W.Crash);
    case _ =>
  }

  lemma PurgesStayServed(fn: Fnmatch, u: Setup, s: State, e: Step, t: State)
    requires Manned(u) && Steps(fn, u, s, e, t) && Served(u, s)
    ensures forall k :: 0 <= k < |t.fanout| ==> t.fanout[k].cdn in u.workers.serves
    ensures forall c :: c in t.b.cells ==> c in u.workers.serves
  {
    if e.Take? {
      TargetsAreServed(fn, u, e.mask, e.path);
    }
  }

  lemma StepKeepsFit(fn: Fnmatch, u: Setup, s: State, e: Step, t: State)
    requires Manned(u) && Steps(fn, u, s, e, t) && Fit(u, s)
    ensures Fit(u, t)
  {
    StepKeepsInv(fn, u, s, e, t);
    WorkersStayFit(fn, u, s, e, t);
    PurgesStayServed(fn, u, s, e, t);
  }

  lemma InitIsFit(u: Setup, clock: real, now: real)
    requires Manned(u)
    ensures Fit(u, Init(u, clock, now))
  {
    InitInv(u, clock, now);
  }

  // ---------------------------------------------------------------- one round of the batcher

  /** The batcher's step as a step of the daemon. */
  function Lifted(e: B.Event): Step {
    if e.EnqueueOk? then Enqueue(e.cdn, e.list) else InBatcher(e)
  }

  /** A run that neither fails nor takes on anything new. */
  predicate Finishing(es: seq<Step>) {
    forall k :: 0 <= k < |es| ==> Harmless(es[k]) && !es[k].Take?
  }

  /** Jobs are added, and nobody works on any. */
  ghost predicate OnlyEnqueues(q: Table, r: Table) {
    && (forall id :: id in q.rows ==> id in r.rows && r.rows[id] == q.rows[id])
    && (forall id :: id in r.rows && id !in q.rows ==> r.rows[id].status == Pending)
  }

  lemma BatcherMoves(fn: Fnmatch, u: Setup, s: State, e: B.Event) returns (t: State)
    requires |s.w.pcs| == |u.workers.serves| && WellFormed(s.w.table)
    requires B.Enabled(s.b, e) && BT.Internal(e) && !e.EnqueueFails? && !e.Cancel?
    ensures Steps(fn, u, s, Lifted(e), t) && t.b == B.Next(u.batching, s.b, e)
    ensures OnlyEnqueues(s.w.table, t.w.table) && t.running == s.running && t.fanout == s.fanout
  {
    t := Next(fn, u, s, Lifted(e));
  }

  lemma TwoSteps(fn: Fnmatch, u: Setup, s: State, d: Step, r: State, e: Step, t: State)
    requires Steps(fn, u, s, d, r) && Steps(fn, u, r, e, t) && |t.w.pcs| == |u.workers.serves|
    ensures Runs(fn, u, s, [d, e], t)
  {
    assert [d, e][1..] == [e] && [e][1..] == [] && Runs(fn, u, t, [], t);
  }

  lemma SubmitRound(fn: Fnmatch, u: Setup, s: State) returns (t: State)
    requires |s.w.pcs| == |u.workers.serves| && s.running && s.b.lock.Free? && s.fanout != [] && BT.NobodyDead(s.b)
    ensures Steps(fn, u, s, SubmitNext, t) && t.w == s.w && t.running && t.fanout == s.fanout[1..] && BT.NobodyDead(t.b)
  {
    t := Next(fn, u, s, SubmitNext);
    BT.NobodyDies(u.batching, s.b, B.Submit(s.fanout[0].cdn, s.fanout[0].url));
  }

  lemma FlushRound(fn: Fnmatch, u: Setup, s: State) returns (es: seq<Step>, t: State)
    requires Inv(u, s) && BT.NobodyDead(s.b) && !BT.Empty(s.b)
    ensures Runs(fn, u, s, es, t) && Finishing(es)
    ensures t.running == s.running && t.fanout == s.fanout && OnlyEnqueues(s.w.table, t.w.table)
    ensures BT.NobodyDead(t.b) && BT.Pending(t.b) < BT.Pending(s.b)
  {
    var to, e := BT.CanMove(u.batching, s.b);
    BT.MoveLowers(u.batching, s.b, to, e);
    var mid := s.(b := B.Next(u.batching, s.b, B.Tick(to)));
    t := BatcherMoves(fn, u, mid, e);
    es := [InBatcher(B.Tick(to)), Lifted(e)];
    TwoSteps(fn, u, s, es[0], mid, es[1], t);
  }

  // ---------------------------------------------------------------- the workers to their end

  function OfWorkers(es: seq<W.Event>): (ds: seq<Step>)
    ensures |ds| == |es| && forall k :: 0 <= k < |es| ==> ds[k] == InWorkers(es[k])
  {
    seq(|es|, k requires 0 <= k < |es| => InWorkers(es[k]))
  }

  /** While the daemon runs a run of the workers is a run of the daemon. */
  lemma {:induction false} WorkersRun(fn: Fnmatch, u: Setup, s: State, es: seq<W.Event>)
    requires s.running && W.IsRun(u.workers, s.w, es)
    requires forall k :: 0 <= k < |es| ==> WP.Smooth(es[k])
    ensures Runs(fn, u, s, OfWorkers(es), s.(w := W.After(u.workers, s.w, es))) && Finishing(OfWorkers(es))
    decreases |es|
  {
    if es != [] {
      assert WP.Smooth(es[0]);
      WorkersRun(fn, u, s.(w := W.Next(u.workers, s.w, es[0])), es[1..]);
      assert OfWorkers(es)[1..] == OfWorkers(es[1..]);
    }
  }

  lemma JobsCanBeFinished(fn: Fnmatch, u: Setup, s: State) returns (es: seq<Step>, t: State)
    requires Fit(u, s) && s.running
    ensures Runs(fn, u, s, es, t) && Finishing(es) && t == s.(w := t.w)
    ensures WP.AllFinished(t.w.table) && t.w.table.rows.Keys == s.w.table.rows.Keys
    ensures forall id :: Claimable(s.w.table, id) ==> t.w.table.rows[id].status == Done
  {
    var ws := WP.CanDrain(u.workers, s.w);
    WorkersRun(fn, u, s, ws);
    es, t := OfWorkers(ws), s.(w := W.After(u.workers, s.w, ws));
  }
}
