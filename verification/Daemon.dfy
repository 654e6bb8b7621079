/** The composition in `daemon.py`: pipeline, batcher, job table and workers in one state, with
    failing enqueues, shutdown, and crashes followed by a restart.

    What is owed for an event the filter passes, to every binding of its watch: that a provider is
    asked to purge this URL after the event. */
module Daemon {
  import opened Prelude
  import opened Globs
  import opened Ownership
  import opened JobQueue
  import B = Batcher
  import BR = BatcherRuns
  import W = Workers

  datatype Setup = Setup(watches: seq<Watch>, batching: B.Config, workers: W.Config)

  /** `since` is the last job id and `calls` the number of finished provider calls at the event. */
  datatype Owed = Owed(cdn: string, url: string, since: nat, calls: nat)

  /** `fanout`: the targets of the current event the pipeline has still to submit. */
  datatype State = State(b: B.State, w: W.State, fanout: seq<Target>, running: bool)

  datatype Step =
    | Take(mask: string, path: Path)
    | SubmitNext
    | Enqueue(cdn: string, list: seq<string>)
    | EnqueueFails(cdn: string)
    | InBatcher(b: B.Event)
    | InWorkers(w: W.Event)
    | Stop
    | Crash(clock: real)

  function Init(u: Setup, clock: real, now: real): State {
    State(B.Init(clock), W.Init(u.workers, now), [], true)
  }

  /** The pipeline is inside `submit`, waiting for the enqueue of a full buffer. */
  predicate InSubmit(s: State) {
    s.b.lock.Enqueueing? && s.b.lock.holder.BySubmit?
  }

  /** While the daemon runs the pipeline takes and submits and the workers work; `flush_all` belongs to
      the shutdown. */
  ghost predicate Enabled(s: State, e: Step) {
    match e
    case Take(_, _) => s.running && s.fanout == [] && !InSubmit(s)
    case SubmitNext => s.running && s.fanout != [] && s.b.lock.Free?
    case Enqueue(cdn, list) => B.Enabled(s.b, B.EnqueueOk(cdn, list))
    case EnqueueFails(cdn) => B.Enabled(s.b, B.EnqueueFails(cdn))
    case InBatcher(b) =>
      && !b.Submit? && !b.EnqueueOk? && !b.EnqueueFails? && !b.Cancel? && (b.FlushAll? ==> !s.running)
      && B.Enabled(s.b, b)
    case InWorkers(w) => !w.Enqueue? && !w.Crash? && (w.Tick? || s.running) && W.Enabled(s.w, w)
    case Stop => s.running
    case Crash(_) => true
  }

  /** The targets of an event, none if the filter drops it. */
  ghost function Targets(fn: Fnmatch, ws: seq<Watch>, mask: string, p: Path): seq<Target> {
    match Verdict(fn, SortByDepth(ws), mask, p)
    case None => []
    case Some(e) => Map(ByRoot(ws), e)
  }

  ghost function OwedFor(s: State, ts: seq<Target>): set<Owed> {
    set t | t in ts :: Owed(t.cdn, t.url, s.w.table.lastId, |s.w.calls|)
  }

  /** The step is an event for which the daemon owes o. */
  ghost predicate Incurs(fn: Fnmatch, u: Setup, s: State, e: Step, o: Owed) {
    e.Take? && o in OwedFor(s, Targets(fn, u.watches, e.mask, e.path))
  }

  predicate InFanout(s: State, o: Owed) {
    Target(o.cdn, o.url) in s.fanout
  }

  predicate InBuffer(s: State, o: Owed) {
    o.cdn in s.b.cells && o.url in s.b.cells[o.cdn].buffer
  }

  predicate InHand(s: State, o: Owed) {
    s.b.lock.Enqueueing? && s.b.lock.cdn == o.cdn && o.url in s.b.lock.urls
  }

  /** Job id is newer than the event and carries the URL to the CDN. */
  predicate Carries(t: Table, id: nat, o: Owed) {
    id in t.rows && o.since < id && t.rows[id].cdn == o.cdn && o.url in t.rows[id].urls
  }

  ghost predicate HasJob(s: State, o: Owed) {
    exists id :: Carries(s.w.table, id, o)
  }

  /** The tasks of the daemon are cancelled: no more submissions, no more work, and the debounce tasks
      are gone. */
  function Halted(u: Setup, s: State, b: B.State): State {
    s.(b := B.Next(u.batching, b, B.Cancel), fanout := [], running := false)
  }

  /** An exception from an enqueue that `submit` waits for ends the pipeline, and with it the daemon;
      from any other it stays in the batcher. */
  ghost function Next(fn: Fnmatch, u: Setup, s: State, e: Step): State
    requires Enabled(s, e) && |s.w.pcs| == |u.workers.serves|
  {
    match e
    case Take(mask, p) =>
      s.(fanout := Targets(fn, u.watches, mask, p))
    case SubmitNext =>
      s.(b := B.Next(u.batching, s.b, B.Submit(s.fanout[0].cdn, s.fanout[0].url)), fanout := s.fanout[1..])
    case Enqueue(cdn, list) =>
      s.(b := B.Next(u.batching, s.b, B.EnqueueOk(cdn, list)), w := W.Next(u.workers, s.w, W.Enqueue(cdn, list)))
    case EnqueueFails(cdn) =>
      var b := B.Next(u.batching, s.b, B.EnqueueFails(cdn));
      if InSubmit(s) then Halted(u, s, b) else s.(b := b)
    case InBatcher(b) => s.(b := B.Next(u.batching, s.b, b))
    case InWorkers(w) => s.(w := W.Next(u.workers, s.w, w))
    case Stop => Halted(u, s, s.b)
    case Crash(clock) => State(B.Init(clock), W.Next(u.workers, s.w, W.Crash), [], true)
  }

  /** Step e leads from s to t. */
  ghost predicate Steps(fn: Fnmatch, u: Setup, s: State, e: Step, t: State) {
    Enabled(s, e) && |s.w.pcs| == |u.workers.serves| && t == Next(fn, u, s, e)
  }

  ghost predicate IsRun(fn: Fnmatch, u: Setup, s: State, es: seq<Step>)
    decreases |es|
  {
    && |s.w.pcs| == |u.workers.serves|
    && (es == [] || (Enabled(s, es[0]) && IsRun(fn, u, Next(fn, u, s, es[0]), es[1..])))
  }

  ghost function After(fn: Fnmatch, u: Setup, s: State, es: seq<Step>): State
    requires IsRun(fn, u, s, es)
    decreases |es|
  {
    if es == [] then s else After(fn, u, Next(fn, u, s, es[0]), es[1..])
  }

  ghost predicate Runs(fn: Fnmatch, u: Setup, s: State, es: seq<Step>, t: State) {
    IsRun(fn, u, s, es) && After(fn, u, s, es) == t
  }

  ghost predicate Reachable(fn: Fnmatch, u: Setup, s: State) {
    exists clock, now, es :: Runs(fn, u, Init(u, clock, now), es, s)
  }

  // ---------------------------------------------------------------- invariant

  ghost predicate Placed(s: State, o: Owed) {
    InFanout(s, o) || InBuffer(s, o) || InHand(s, o) || HasJob(s, o)
  }

  /** The event is no later than now: jobs and calls that came after it can be told from those before. */
  ghost predicate Dated(s: State, o: Owed) {
    && o.since <= s.w.table.lastId && o.calls <= |s.w.calls|
    && forall k :: 0 <= k < o.calls ==> s.w.calls[k].id <= o.since
  }

  ghost predicate Inv(u: Setup, s: State) {
    && W.Inv(u.workers, s.w) && BR.Inv(u.batching, s.b)
    && (forall k :: 0 <= k < |s.w.calls| ==> s.w.calls[k].id <= s.w.table.lastId)
  }

  lemma CallsAreOnRows(u: Setup, s: W.State, e: W.Event)
    requires W.Inv(u.workers, s) && W.Enabled(s, e)
    requires forall k :: 0 <= k < |s.calls| ==> s.calls[k].id <= s.table.lastId
    ensures var t := W.Next(u.workers, s, e);
      && s.calls <= t.calls && s.table.lastId <= t.table.lastId
      && forall k :: 0 <= k < |t.calls| ==> t.calls[k].id <= t.table.lastId
  {
    if e.Return? {
      assert W.PcOk(u.workers, s, e.w);
    }
  }

  lemma JobStays(u: Setup, s: State, t: State, o: Owed)
    requires KeepsPurges(s.w.table, t.w.table) && HasJob(s, o)
    ensures HasJob(t, o)
  {
    var id :| Carries(s.w.table, id, o);
    assert SamePurge(s.w.table, t.w.table, id);
    assert Carries(t.w.table, id, o);
  }

  lemma SubmitPlaces(fn: Fnmatch, u: Setup, s: State, t: State, o: Owed)
    requires Steps(fn, u, s, SubmitNext, t) && Placed(s, o)
    ensures Placed(t, o)
  {
  }

  lemma BatcherKeepsPlace(fn: Fnmatch, u: Setup, s: State, e: Step, t: State, o: Owed)
    requires Steps(fn, u, s, e, t) && e.InBatcher? && Placed(s, o)
    ensures Placed(t, o)
  {
  }

  /** The enqueue turns what is in hand into a job newer than the event. */
  lemma EnqueuePlaces(fn: Fnmatch, u: Setup, s: State, e: Step, t: State, o: Owed)
    requires Steps(fn, u, s, e, t) && e.Enqueue? && Dated(s, o) && Placed(s, o) && KeepsPurges(s.w.table, t.w.table)
    ensures Placed(t, o)
  {
    if InHand(s, o) {
      assert o.url in e.list;
      assert Carries(t.w.table, s.w.table.lastId + 1, o);
    } else if HasJob(s, o) {
      JobStays(u, s, t, o);
    }
  }

  lemma WorkersStep(fn: Fnmatch, u: Setup, s: State, e: Step, t: State)
    requires Steps(fn, u, s, e, t) && Inv(u, s)
    ensures W.Inv(u.workers, t.w) && KeepsPurges(s.w.table, t.w.table) && s.w.calls <= t.w.calls
    ensures forall k :: 0 <= k < |t.w.calls| ==> t.w.calls[k].id <= t.w.table.lastId
  {
    var w := if e.Enqueue? then W.Enqueue(e.cdn, e.list) else if e.InWorkers? then e.w else W.Crash;
    if e.Enqueue? || e.InWorkers? || e.Crash? {
      W.StepKeepsInv(u.workers, s.w, w);
      CallsAreOnRows(u, s.w, w);
    }
  }

  lemma BatcherStep(fn: Fnmatch, u: Setup, s: State, e: Step, t: State)
    requires Steps(fn, u, s, e, t) && BR.Inv(u.batching, s.b)
    ensures BR.Inv(u.batching, t.b)
  {
    match e
    case SubmitNext => BR.StepKeepsInv(u.batching, s.b, B.Submit(s.fanout[0].cdn, s.fanout[0].url));
    case Enqueue(cdn, list) => BR.StepKeepsInv(u.batching, s.b, B.EnqueueOk(cdn, list));
    case EnqueueFails(cdn) =>
      BR.StepKeepsInv(u.batching, s.b, B.EnqueueFails(cdn));
      BR.StepKeepsInv(u.batching, B.Next(u.batching, s.b, B.EnqueueFails(cdn)), B.Cancel);
    case InBatcher(b) => BR.StepKeepsInv(u.batching, s.b, b);
    case Stop => BR.StepKeepsInv(u.batching, s.b, B.Cancel);
    case Crash(clock) => BR.InitInv(u.batching, clock);
    case _ =>
  }

  /** A purge dated once stays dated: what comes later can always be told from what was before. */
  lemma DatedStays(fn: Fnmatch, u: Setup, s: State, e: Step, t: State, o: Owed)
    requires Steps(fn, u, s, e, t) && Inv(u, s) && Dated(s, o)
    ensures Dated(t, o)
  {
    WorkersStep(fn, u, s, e, t);
  }

  lemma StepKeepsInv(fn: Fnmatch, u: Setup, s: State, e: Step, t: State)
    requires Steps(fn, u, s, e, t) && Inv(u, s)
    ensures Inv(u, t)
  {
    WorkersStep(fn, u, s, e, t);
    BatcherStep(fn, u, s, e, t);
  }

  lemma {:induction false} RunKeepsInv(fn: Fnmatch, u: Setup, s: State, es: seq<Step>, t: State)
    requires Runs(fn, u, s, es, t) && Inv(u, s)
    ensures Inv(u, t)
    decreases |es|
  {
    if es != [] {
      StepKeepsInv(fn, u, s, es[0], Next(fn, u, s, es[0]));
      RunKeepsInv(fn, u, Next(fn, u, s, es[0]), es[1..], t);
    }
  }

  lemma InitInv(u: Setup, clock: real, now: real)
    ensures Inv(u, Init(u, clock, now))
  {
    BR.InitInv(u.batching, clock);
  }

  // ---------------------------------------------------------------- results

  /** A finished job that carries the URL was decided by a provider call after the event, on the very
      list that holds the URL. */
  ghost predicate Answered(s: State, id: nat, o: Owed)
    requires id in s.w.table.rows
  {
    var row := s.w.table.rows[id];
    && (row.status == Done ==> exists k :: o.calls <= k < |s.w.calls| && W.Purged(s.w.calls[k], id, row.urls))
    && (row.status == Failed ==> exists k :: o.calls <= k < |s.w.calls| && W.GaveUp(s.w.calls[k], id, row))
  }

  lemma CarriedIsAnswered(u: Setup, s: State, o: Owed, id: nat)
    requires Inv(u, s) && Dated(s, o) && Carries(s.w.table, id, o)
    ensures Answered(s, id, o)
  {
    var row := s.w.table.rows[id];
    assert W.RowOk(s.w, id);
    if row.status == Done {
      var k :| 0 <= k < |s.w.calls| && W.Purged(s.w.calls[k], id, row.urls);
      assert k >= o.calls;
    } else if row.status == Failed {
      var k :| 0 <= k < |s.w.calls| && W.GaveUp(s.w.calls[k], id, row);
      assert k >= o.calls;
    }
  }

  /** The step destroys the only place the purge had: a crash every place but a job; a shutdown what the
      pipeline still had to submit; a failing enqueue its batch, and if the pipeline waited for it
      also the rest of the event. */
  ghost predicate Destroys(s: State, e: Step, o: Owed) {
    !HasJob(s, o) && match e
      case Crash(_) => InFanout(s, o) || InBuffer(s, o) || InHand(s, o)
      case Stop => InFanout(s, o) && !InBuffer(s, o) && !InHand(s, o)
      case EnqueueFails(_) =>
        !InBuffer(s, o) && if InSubmit(s) then InHand(s, o) || InFanout(s, o) else InHand(s, o) && !InFanout(s, o)
      case _ => false
  }

  lemma SameJobs(s: State, t: State, o: Owed)
    requires s.w.table == t.w.table
    ensures HasJob(s, o) <==> HasJob(t, o)
  {
    if id :| Carries(s.w.table, id, o) {
      assert Carries(t.w.table, id, o);
    }
    if id :| Carries(t.w.table, id, o) {
      assert Carries(s.w.table, id, o);
    }
  }

  lemma FailurePlaces(fn: Fnmatch, u: Setup, s: State, e: Step, t: State, o: Owed)
    requires Steps(fn, u, s, e, t) && (e.EnqueueFails? || e.Stop?) && Placed(s, o)
    ensures !Placed(t, o) <==> Destroys(s, e, o)
  {
    assert o.cdn in t.b.cells <==> o.cdn in s.b.cells;
    assert o.cdn in t.b.cells ==> t.b.cells[o.cdn].buffer == s.b.cells[o.cdn].buffer;
    SameJobs(s, t, o);
  }

  lemma CrashPlaces(fn: Fnmatch, u: Setup, s: State, e: Step, t: State, o: Owed)
    requires Steps(fn, u, s, e, t) && e.Crash? && Inv(u, s) && Placed(s, o)
    ensures !Placed(t, o) <==> Destroys(s, e, o)
  {
    WorkersStep(fn, u, s, e, t);
    if HasJob(s, o) {
      JobStays(u, s, t, o);
    }
    if id :| Carries(t.w.table, id, o) {
      assert SamePurge(s.w.table, t.w.table, id) && Carries(s.w.table, id, o);
    }
  }

  /** A purge owed loses its place in a step exactly when the step destroys it. */
  lemma WhatIsWrittenOff(fn: Fnmatch, u: Setup, s: State, e: Step, t: State, o: Owed)
    requires Steps(fn, u, s, e, t) && Inv(u, s) && Dated(s, o) && Placed(s, o)
    ensures !Placed(t, o) <==> Destroys(s, e, o)
  {
    match e
    case SubmitNext => SubmitPlaces(fn, u, s, t, o);
    case InBatcher(_) => BatcherKeepsPlace(fn, u, s, e, t, o);
    case Enqueue(_, _) =>
      WorkersStep(fn, u, s, e, t);
      EnqueuePlaces(fn, u, s, e, t, o);
    case InWorkers(_) =>
      WorkersStep(fn, u, s, e, t);
      if HasJob(s, o) {
        JobStays(u, s, t, o);
      }
    case Take(_, _) => SameJobs(s, t, o);
    case Crash(_) => CrashPlaces(fn, u, s, e, t, o);
    case _ => FailurePlaces(fn, u, s, e, t, o);
  }

  /** The state before step k. */
  ghost function At(fn: Fnmatch, u: Setup, s: State, es: seq<Step>, k: nat): State
    requires IsRun(fn, u, s, es) && k <= |es|
    decreases |es|
  {
    if k == 0 then s else At(fn, u, Next(fn, u, s, es[0]), es[1..], k - 1)
  }

  /** Up to step k the purge had a place, and step k destroyed the only one. */
  ghost predicate LostAt(fn: Fnmatch, u: Setup, s: State, es: seq<Step>, k: nat, o: Owed) {
    && IsRun(fn, u, s, es) && k < |es| && Destroys(At(fn, u, s, es, k), es[k], o)
    && forall m :: 0 <= m <= k ==> Placed(At(fn, u, s, es, m), o)
  }

  ghost predicate Lost(fn: Fnmatch, u: Setup, s: State, es: seq<Step>, o: Owed) {
    exists k: nat :: LostAt(fn, u, s, es, k, o)
  }

  lemma {:induction false} PlacedOrLost(fn: Fnmatch, u: Setup, s: State, es: seq<Step>, t: State, o: Owed)
    requires Runs(fn, u, s, es, t) && Inv(u, s) && Dated(s, o) && Placed(s, o)
    ensures Placed(t, o) || Lost(fn, u, s, es, o)
    ensures Inv(u, t) && Dated(t, o)
    decreases |es|
  {
    if es != [] {
      var r := Next(fn, u, s, es[0]);
      StepKeepsInv(fn, u, s, es[0], r);
      DatedStays(fn, u, s, es[0], r, o);
      WhatIsWrittenOff(fn, u, s, es[0], r, o);
      if Placed(r, o) {
        PlacedOrLost(fn, u, r, es[1..], t, o);
        if k: nat :| LostAt(fn, u, r, es[1..], k, o) {
          forall m | 0 <= m <= k + 1 ensures Placed(At(fn, u, s, es, m), o) {
            assert m > 0 ==> At(fn, u, s, es, m) == At(fn, u, r, es[1..], m - 1);
          }
          assert LostAt(fn, u, s, es, k + 1, o);
        }
      } else {
        assert LostAt(fn, u, s, es, 0, o);
        DatedToTheEnd(fn, u, r, es[1..], t, o);
      }
    }
  }

  lemma {:induction false} DatedToTheEnd(fn: Fnmatch, u: Setup, s: State, es: seq<Step>, t: State, o: Owed)
    requires Runs(fn, u, s, es, t) && Inv(u, s) && Dated(s, o)
    ensures Inv(u, t) && Dated(t, o)
    decreases |es|
  {
    if es != [] {
      var r := Next(fn, u, s, es[0]);
      StepKeepsInv(fn, u, s, es[0], r);
      DatedStays(fn, u, s, es[0], r, o);
      DatedToTheEnd(fn, u, r, es[1..], t, o);
    }
  }

  lemma IncurredIsPlaced(fn: Fnmatch, u: Setup, s: State, e: Step, t: State, o: Owed)
    requires Steps(fn, u, s, e, t) && Inv(u, s) && Incurs(fn, u, s, e, o)
    ensures Dated(t, o) && InFanout(t, o)
  {
  }

  /** Over every run, whatever fails: from the event on for which it is owed a purge is with the pipeline,
      in its CDN's buffer, in the enqueue under way, or in a job newer than the event; or it was
      until some later step, a crash, a shutdown or a failing enqueue, destroyed the only place it
      had.  And a job that carries it is done only when the provider said ok after the event, and
      given up only on its refusal. */
  lemma NoPurgeIsLost(fn: Fnmatch, u: Setup, s: State, e: Step, r: State, later: seq<Step>, t: State, o: Owed)
    requires Reachable(fn, u, s) && Steps(fn, u, s, e, r) && Incurs(fn, u, s, e, o) && Runs(fn, u, r, later, t)
    ensures Placed(t, o) || Lost(fn, u, r, later, o)
    ensures forall id :: Carries(t.w.table, id, o) ==> Answered(t, id, o)
  {
    ReachableInv(fn, u, s);
    StepKeepsInv(fn, u, s, e, r);
    IncurredIsPlaced(fn, u, s, e, r, o);
    PlacedOrLost(fn, u, r, later, t, o);
    forall id | Carries(t.w.table, id, o) ensures Answered(t, id, o) {
      CarriedIsAnswered(u, t, o, id);
    }
  }

  lemma ReachableInv(fn: Fnmatch, u: Setup, s: State)
    requires Reachable(fn, u, s)
    ensures Inv(u, s)
  {
    var clock, now, es :| Runs(fn, u, Init(u, clock, now), es, s);
    InitInv(u, clock, now);
    RunKeepsInv(fn, u, Init(u, clock, now), es, s);
  }

  /** A crash loses no job. */
  lemma CrashKeepsJobs(fn: Fnmatch, u: Setup, s: State, clock: real, t: State, o: Owed)
    requires Steps(fn, u, s, Crash(clock), t) && Inv(u, s) && HasJob(s, o)
    ensures HasJob(t, o)
  {
    WorkersStep(fn, u, s, Crash(clock), t);
    JobStays(u, s, t, o);
  }

  predicate Harmless(e: Step) {
    !e.Crash? && !e.Stop? && !e.EnqueueFails?
  }

  predicate HarmlessRun(es: seq<Step>) {
    forall k :: 0 <= k < |es| ==> Harmless(es[k])
  }

  lemma PlaceLasts(fn: Fnmatch, u: Setup, s: State, e: Step, t: State, o: Owed)
    requires Steps(fn, u, s, e, t) && Inv(u, s) && Harmless(e) && Dated(s, o) && Placed(s, o)
    ensures Dated(t, o) && Placed(t, o)
  {
    DatedStays(fn, u, s, e, t, o);
    WhatIsWrittenOff(fn, u, s, e, t, o);
  }

  /** From s the daemon can come to t without a crash, a shutdown or a failing enqueue. */
  ghost predicate LeadsTo(fn: Fnmatch, u: Setup, s: State, t: State) {
    exists es :: Runs(fn, u, s, es, t) && HarmlessRun(es)
  }

  lemma {:induction false} PlaceOutlasts(fn: Fnmatch, u: Setup, s: State, es: seq<Step>, t: State, o: Owed)
    requires Runs(fn, u, s, es, t) && Inv(u, s) && HarmlessRun(es) && Dated(s, o) && Placed(s, o)
    ensures Inv(u, t) && Dated(t, o) && Placed(t, o)
    decreases |es|
  {
    if es != [] {
      var r := Next(fn, u, s, es[0]);
      assert Harmless(es[0]);
      StepKeepsInv(fn, u, s, es[0], r);
      PlaceLasts(fn, u, s, es[0], r, o);
      PlaceOutlasts(fn, u, r, es[1..], t, o);
    }
  }

  ghost predicate Drained(s: State) {
    s.fanout == [] && s.b.lock.Free? && forall c :: c in s.b.cells ==> s.b.cells[c].buffer == {}
  }

  lemma DrainedMeansQueued(u: Setup, s: State, o: Owed)
    requires Inv(u, s) && Dated(s, o) && Placed(s, o) && Drained(s)
    ensures HasJob(s, o) && forall id :: Carries(s.w.table, id, o) ==> Answered(s, id, o)
  {
    forall id | Carries(s.w.table, id, o) ensures Answered(s, id, o) {
      CarriedIsAnswered(u, s, o, id);
    }
  }

  /** What the j-th binding of watch i is owed when p changes. */
  ghost function Due(u: Setup, s: State, i: nat, j: nat, p: Path): Owed
    requires i < |u.watches| && j < |u.watches[i].bindings| && u.watches[i].path <= p
  {
    var b := u.watches[i].bindings[j];
    Owed(b.cdn, Url(b, p[|u.watches[i].path|..]), s.w.table.lastId, |s.w.calls|)
  }

  /** An event of the watch that owns the path, of a relevant kind and not ignored. */
  ghost predicate Passes(fn: Fnmatch, u: Setup, i: nat, mask: string, p: Path) {
    && DistinctRoots(u.watches) && Owns(u.watches, i, p)
    && !MatchesSome(fn, p[|u.watches[i].path|..], u.watches[i].ignore)
    && (|| mask == "IN_MOVED_TO" || mask == "IN_CLOSE_WRITE"
        || ((mask == "IN_DELETE" || mask == "IN_MOVED_FROM") && u.watches[i].flushOnDelete))
  }

  /** Such an event makes a purge owed to every binding of its watch, and due for submission. */
  lemma EventOwesEveryBinding(fn: Fnmatch, u: Setup, s: State, mask: string, p: Path, t: State, i: nat, j: nat)
    requires Steps(fn, u, s, Take(mask, p), t) && Passes(fn, u, i, mask, p) && j < |u.watches[i].bindings|
    ensures var o := Due(u, s, i, j, p); Incurs(fn, u, s, Take(mask, p), o) && InFanout(t, o)
  {
    FilterAndMapperAgree(fn, u.watches, mask, p, i);
    var ts := TargetsFor(u.watches[i].bindings, p[|u.watches[i].path|..]);
    assert Targets(fn, u.watches, mask, p) == ts;
    assert ts[j] in ts;
  }

  /** And nothing is owed for any other event, or to anybody else. */
  lemma OnlyPassingEventsOwe(fn: Fnmatch, u: Setup, s: State, mask: string, p: Path, o: Owed)
    requires DistinctRoots(u.watches) && Incurs(fn, u, s, Take(mask, p), o)
    ensures exists i: nat, j: nat ::
      Passes(fn, u, i, mask, p) && j < |u.watches[i].bindings| && o == Due(u, s, i, j, p)
  {
    SortedScan(u.watches, p);
    var w := FirstOwner(SortByDepth(u.watches), p).value;
    var i: nat :| i < |u.watches| && u.watches[i] == w;
    forall j | 0 <= j < |u.watches| && u.watches[j].path <= p
      ensures |u.watches[j].path| < |w.path| || (u.watches[j].path == w.path && i <= j)
    {
      assert u.watches[j].path == p[..|u.watches[j].path|] && w.path == p[..|w.path|];
    }
    FilterAndMapperAgree(fn, u.watches, mask, p, i);
    var ts := TargetsFor(w.bindings, p[|w.path|..]);
    var j: nat :| j < |ts| && o == Owed(ts[j].cdn, ts[j].url, s.w.table.lastId, |s.w.calls|);
    assert o == Due(u, s, i, j, p);
  }

  /** From the event to the queue: if nothing goes wrong meanwhile, then once pipeline and batcher have
      nothing left in hand every binding of the watch has a job newer than the event with its URL, and
      that job, when finished, was decided by a call after the event. */
  lemma EveryBindingGetsItsJob(fn: Fnmatch, u: Setup, s: State, mask: string, p: Path, r: State, t: State,
                               i: nat, j: nat)
    requires Passes(fn, u, i, mask, p) && j < |u.watches[i].bindings|
    requires Reachable(fn, u, s) && Steps(fn, u, s, Take(mask, p), r) && LeadsTo(fn, u, r, t) && Drained(t)
    ensures HasJob(t, Due(u, s, i, j, p))
    ensures forall id :: Carries(t.w.table, id, Due(u, s, i, j, p)) ==> Answered(t, id, Due(u, s, i, j, p))
  {
    var o := Due(u, s, i, j, p);
    ReachableInv(fn, u, s);
    StepKeepsInv(fn, u, s, Take(mask, p), r);
    EventOwesEveryBinding(fn, u, s, mask, p, r, i, j);
    DatedStays(fn, u, s, Take(mask, p), r, o);
    var es :| Runs(fn, u, r, es, t) && HarmlessRun(es);
    PlaceOutlasts(fn, u, r, es, t, o);
    DrainedMeansQueued(u, t, o);
  }

  lemma FirstEnqueueRaises(fn: Fnmatch, u: Setup, s: State)
    requires s.running && s.fanout != [] && s.b.cells == map[] && s.b.lock.Free? && u.batching.maxSize <= 1
    requires |s.w.pcs| == |u.workers.serves|
    ensures var es := [SubmitNext, EnqueueFails(s.fanout[0].cdn)];
      && IsRun(fn, u, s, es)
      && var t := After(fn, u, s, es);
         && !t.running && t.fanout == [] && t.b.lock.Free? && t.w == s.w
         && forall c :: c in t.b.cells ==> t.b.cells[c].buffer == {}
  {
    var target := s.fanout[0];
    var es := [SubmitNext, EnqueueFails(target.cdn)];
    var t := Next(fn, u, s, es[0]);
    assert {} + {target.url} == {target.url} && |{target.url}| == 1;
    assert InSubmit(t) && t.b.cells.Keys == {target.cdn} && t.b.cells[target.cdn].buffer == {};
    assert es[1..] == [es[1]] && [es[1]][1..] == [];
    assert IsRun(fn, u, t, es[1..]) && After(fn, u, t, es[1..]) == Next(fn, u, t, es[1]);
  }

  /** Batches of one, and the first enqueue of an event raises: the exception comes out of `submit`, the
      daemon stops, and of all the purges of the event, for whatever CDN, none has a place. */
  lemma FailingSubmitEndsTheDaemon(fn: Fnmatch, u: Setup, clock: real, now: real, mask: string, p: Path, i: nat)
    requires Passes(fn, u, i, mask, p) && u.watches[i].bindings != [] && u.batching.maxSize <= 1
    ensures var s0, es := Init(u, clock, now), [Take(mask, p), SubmitNext, EnqueueFails(u.watches[i].bindings[0].cdn)];
      && IsRun(fn, u, s0, es)
      && var s := After(fn, u, s0, es);
         && !s.running && (forall m, q :: !Enabled(s, Take(m, q)))
         && forall j: nat :: j < |u.watches[i].bindings| ==>
              Incurs(fn, u, s0, es[0], Due(u, s0, i, j, p)) && !Placed(s, Due(u, s0, i, j, p))
  {
    var s0, bindings := Init(u, clock, now), u.watches[i].bindings;
    var es := [Take(mask, p), SubmitNext, EnqueueFails(bindings[0].cdn)];
    var s1 := Next(fn, u, s0, es[0]);
    FilterAndMapperAgree(fn, u.watches, mask, p, i);
    assert s1.fanout == TargetsFor(bindings, p[|u.watches[i].path|..]) && s1.fanout[0].cdn == bindings[0].cdn;
    FirstEnqueueRaises(fn, u, s1);
    assert es[1..] == [SubmitNext, EnqueueFails(s1.fanout[0].cdn)];
    var s := After(fn, u, s0, es);
    forall j: nat | j < |bindings|
      ensures Incurs(fn, u, s0, es[0], Due(u, s0, i, j, p)) && !Placed(s, Due(u, s0, i, j, p))
    {
      EventOwesEveryBinding(fn, u, s0, mask, p, s1, i, j);
    }
  }

  ghost predicate Stopped(s: State) {
    !s.running && forall c :: c in s.b.cells ==> s.b.cells[c].task.Dead?
  }

  /** What is left to happen in a daemon that has stopped: an enqueue under way comes to its end, `flush_all`
      runs, and time passes. */
  predicate OfShutdown(e: Step) {
    match e
    case Enqueue(_, _) => true
    case EnqueueFails(_) => true
    case InBatcher(b) => b.FlushAll? || b.DrainNext? || b.DrainEnd? || b.Tick?
    case InWorkers(w) => w.Tick?
    case _ => false
  }

  lemma {:induction false} StoppedForGood(fn: Fnmatch, u: Setup, s: State, es: seq<Step>)
    requires Stopped(s) && IsRun(fn, u, s, es) && forall k :: 0 <= k < |es| ==> !es[k].Crash?
    ensures forall k :: 0 <= k < |es| ==> OfShutdown(es[k])
    decreases |es|
  {
    if es != [] {
      assert !es[0].Crash? && OfShutdown(es[0]);
      StoppedForGood(fn, u, Next(fn, u, s, es[0]), es[1..]);
    }
  }

  /** A stop, and an enqueue that raises out of the pipeline, end it all: until the next start no event is
      taken, nothing submitted, no job worked on, and no debounce task does anything. */
  lemma StopEndsEverything(fn: Fnmatch, u: Setup, s: State, e: Step, t: State, es: seq<Step>)
    requires Steps(fn, u, s, e, t) && (e.Stop? || (e.EnqueueFails? && InSubmit(s)))
    requires IsRun(fn, u, t, es) && forall k :: 0 <= k < |es| ==> !es[k].Crash?
    ensures forall k :: 0 <= k < |es| ==> OfShutdown(es[k])
  {
    StoppedForGood(fn, u, t, es);
  }

  // ---------------------------------------------------------------- the loop of the pipeline

  function SubsFor(ts: seq<Target>, at: real): (subs: seq<B.Sub>)
    ensures |subs| == |ts| && forall k :: 0 <= k < |ts| ==> subs[k] == B.Sub(ts[k].cdn, ts[k].url, at)
  {
    seq(|ts|, k requires 0 <= k < |ts| => B.Sub(ts[k].cdn, ts[k].url, at))
  }

  ghost predicate Delivered(b: B.State, t: Table, since: nat, target: Target) {
    || (target.cdn in b.cells && target.url in b.cells[target.cdn].buffer)
    || exists id :: Carries(t, id, Owed(target.cdn, target.url, since, 0))
  }

  /** `submit` to its end: a full buffer is enqueued, in some order, before it returns. */
  ghost predicate Submitted(g: B.Config, b: B.State, q: Table, target: Target, now: real, b': B.State, q': Table)
    requires b.lock.Free?
  {
    var mid := B.Next(g, b, B.Submit(target.cdn, target.url));
    if mid.lock.Free? then b' == mid && q' == q
    else exists list ::
      && IsListing(list, mid.lock.urls)
      && b' == B.Next(g, mid, B.EnqueueOk(target.cdn, list)) && q' == Insert(q, target.cdn, list, now)
  }

  lemma SubmittedIsDelivered(g: B.Config, b: B.State, q: Table, target: Target, now: real, b': B.State, q': Table,
                             since: nat, t: Target)
    requires b.lock.Free? && WellFormed(q) && since <= q.lastId && Submitted(g, b, q, target, now, b', q')
    requires t == target || Delivered(b, q, since, t)
    ensures Delivered(b', q', since, t)
  {
    var o := Owed(t.cdn, t.url, since, 0);
    if id :| Carries(q, id, o) {
      assert Carries(q', id, o);
    } else {
      var mid := B.Next(g, b, B.Submit(target.cdn, target.url));
      assert (t.cdn in mid.cells && t.url in mid.cells[t.cdn].buffer)
          || (mid.lock.Enqueueing? && t.cdn == target.cdn && t.url in mid.lock.urls);
      if !(t.cdn in mid.cells && t.url in mid.cells[t.cdn].buffer) {
        assert t.url in mid.lock.urls;
        assert Carries(q', q.lastId + 1, o);
      }
    }
  }

  /** The enqueue of a full buffer raises: its batch is gone and `submit` with it. */
  ghost predicate Raised(g: B.Config, b: B.State, target: Target, b': B.State)
    requires b.lock.Free?
  {
    var mid := B.Next(g, b, B.Submit(target.cdn, target.url));
    mid.lock.Enqueueing? && b' == B.Next(g, mid, B.EnqueueFails(target.cdn))
  }

  method SubmitToEnd(batcher: B.Debouncer, queue: PersistentQueue, target: Target, now: real, raises: bool)
      returns (ok: bool)
    requires batcher.Valid() && queue.Valid() && batcher.lock.Free?
    modifies batcher, queue
    ensures batcher.Valid() && queue.Valid()
    ensures ok ==> Submitted(batcher.g, old(batcher.Contents()), old(queue.Contents()), target, now,
                             batcher.Contents(), queue.Contents())
    ensures !ok ==> raises && Raised(batcher.g, old(batcher.Contents()), target, batcher.Contents())
                    && queue.Contents() == old(queue.Contents())
  {
    batcher.SubmitTarget(target.cdn, target.url);
    if batcher.lock.Enqueueing? {
      if raises {
        batcher.EnqueueRaised(target.cdn);
        return false;
      }
      var list := ListOf(batcher.lock.urls);
      var _ := queue.Enqueue(target.cdn, list, now);
      batcher.Enqueued(target.cdn, list);
    }
    return true;
  }

  /** The first n targets of an event have been submitted. */
  ghost predicate Turned(b0: B.State, q0: Table, ts: seq<Target>, n: nat, b: B.State, q: Table)
    requires n <= |ts|
  {
    && b.lock.Free? && b.now == b0.now && WellFormed(q) && q0.lastId <= q.lastId
    && b.submitted == b0.submitted + SubsFor(ts[..n], b0.now)
    && forall k {:trigger ts[k]} :: 0 <= k < n ==> Delivered(b, q, q0.lastId, ts[k])
  }

  lemma TurnStep(g: B.Config, b0: B.State, q0: Table, ts: seq<Target>, n: nat, b: B.State, q: Table, now: real,
                 b': B.State, q': Table)
    requires n < |ts| && Turned(b0, q0, ts, n, b, q) && Submitted(g, b, q, ts[n], now, b', q') && WellFormed(q')
    ensures Turned(b0, q0, ts, n + 1, b', q')
  {
    forall k | 0 <= k < n + 1 ensures Delivered(b', q', q0.lastId, ts[k]) {
      SubmittedIsDelivered(g, b, q, ts[n], now, b', q', q0.lastId, ts[k]);
    }
    assert SubsFor(ts[..n + 1], b0.now) == SubsFor(ts[..n], b0.now) + [B.Sub(ts[n].cdn, ts[n].url, b0.now)];
    assert b'.submitted == b.submitted + [B.Sub(ts[n].cdn, ts[n].url, b.now)];
  }

  /** One turn of `_pipeline`: what the filter passes is submitted target by target.  If no enqueue raises,
      every target is in its buffer or in a job of this turn when the turn ends; the first that does ends
      the turn there and then. */
  method PipelineTurn(filter: EventFilter, fn: Fnmatch, byRoot: map<Path, seq<Binding>>, batcher: B.Debouncer,
                      queue: PersistentQueue, mask: string, p: Path, now: real, raises: nat -> bool)
      returns (n: nat, ok: bool)
    requires batcher.Valid() && queue.Valid() && batcher.lock.Free?
    modifies batcher, queue
    ensures batcher.Valid() && queue.Valid()
    ensures var v := Verdict(fn, filter.watches, mask, p);
      var ts := if v.None? then [] else Map(byRoot, v.value);
      var b0, q0 := old(batcher.Contents()), old(queue.Contents());
      if ok then n == |ts| && Turned(b0, q0, ts, n, batcher.Contents(), queue.Contents())
      else
        n < |ts| && raises(n) && exists b ::
          Turned(b0, q0, ts, n, b, queue.Contents()) && Raised(batcher.g, b, ts[n], batcher.Contents())
  {
    ghost var b0, q0 := batcher.Contents(), queue.Contents();
    var event := filter.Normalize(fn, mask, p);
    var targets := if event.None? then [] else Map(byRoot, event.value);
    n := 0;
    assert SubsFor(targets[..0], batcher.clock) == [];
    while n < |targets|
      invariant 0 <= n <= |targets| && batcher.Valid() && queue.Valid()
      invariant Turned(b0, q0, targets, n, batcher.Contents(), queue.Contents())
    {
      ghost var b, q := batcher.Contents(), queue.Contents();
      ok := SubmitToEnd(batcher, queue, targets[n], now, raises(n));
      if !ok {
        assert Turned(b0, q0, targets, n, b, q);
        return;
      }
      TurnStep(batcher.g, b0, q0, targets, n, b, q, now, batcher.Contents(), queue.Contents());
      n := n + 1;
    }
    ok := true;
  }
}
