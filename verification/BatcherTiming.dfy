/** The debounce protocol in time.  The deadlines of one CDN need only that it is not kept waiting: time
    passes only while its task has nothing to do and none of its batches is in `enqueue`, and none of
    its enqueues fails.  Meanwhile others may hold the lock, and fail. */
module BatcherTiming {
  import opened Prelude
  import opened Batcher
  import opened BatcherRuns

  /** Nothing to do for the task of this cell until time `to`. */
  predicate Calm(c: Cell, to: real) {
    match c.task
    case Outer => !c.wake
    case Sleeping(until) => !c.wake && to <= until
    case Dead => true
    case _ => false
  }

  /** The step is in time for one CDN. */
  predicate TimelyFor(s: State, e: Event, cdn: string) {
    match e
    case Tick(to) => Calm(CellOf(s, cdn), to) && !(s.lock.Enqueueing? && s.lock.cdn == cdn)
    case EnqueueFails(c) => c != cdn
    case Cancel => false
    case _ => true
  }

  ghost predicate IsTimedRunFor(g: Config, s: State, es: seq<Event>, cdn: string)
    decreases |es|
  {
    es == [] || (Enabled(s, es[0]) && TimelyFor(s, es[0], cdn) && IsTimedRunFor(g, Next(g, s, es[0]), es[1..], cdn))
  }

  ghost predicate Quiet(s: State, to: real) {
    s.lock.Free? && forall cdn {:trigger s.cells[cdn]} :: cdn in s.cells ==> Calm(s.cells[cdn], to)
  }

  /** In time for all of them: nobody has anything to do while time passes. */
  ghost predicate Timely(s: State, e: Event) {
    match e
    case Tick(to) => Quiet(s, to)
    case EnqueueFails(_) => false
    case Cancel => false
    case _ => true
  }

  ghost predicate IsTimedRun(g: Config, s: State, es: seq<Event>)
    decreases |es|
  {
    es == [] || (Enabled(s, es[0]) && Timely(s, es[0]) && IsTimedRun(g, Next(g, s, es[0]), es[1..]))
  }

  lemma {:induction false} TimedRunIsRun(g: Config, s: State, es: seq<Event>)
    requires IsTimedRun(g, s, es)
    ensures IsRun(g, s, es)
    decreases |es|
  {
    if es != [] {
      TimedRunIsRun(g, Next(g, s, es[0]), es[1..]);
    }
  }

  lemma {:induction false} TimedForEach(g: Config, s: State, es: seq<Event>, cdn: string)
    requires IsTimedRun(g, s, es)
    ensures IsTimedRunFor(g, s, es, cdn)
    decreases |es|
  {
    if es != [] {
      TimedForEach(g, Next(g, s, es[0]), es[1..], cdn);
    }
  }

  /** At time `at` none of the submissions is older than the maximal age, and the last one not older
      than the quiet window. */
  ghost predicate InTime(g: Config, subs: seq<Sub>, at: real) {
    && (forall k :: 0 <= k < |subs| ==> at <= subs[k].at + g.maxAge)
    && (subs != [] ==> at <= subs[|subs| - 1].at + g.quiet)
  }

  /** A sleeping task's alarm never goes off later than the present contents are due, even when size
      flushes and new submissions have come since it was set. */
  ghost predicate CellTimed(g: Config, c: Cell, now: real) {
    && !c.task.Dead?
    && (c.buffer != {} ==> c.first.Some? && c.last.Some? && now <= Deadline(g, c))
    && (c.task.Sleeping? ==>
          && now <= c.task.until <= now + g.quiet && c.task.until <= now + g.maxAge
          && (c.buffer != {} ==> c.task.until <= Deadline(g, c)))
  }

  ghost predicate TimedInv(g: Config, s: State, cdn: string) {
    && CellTimed(g, CellOf(s, cdn), s.now) && InTime(g, InHand(s.lock, cdn), s.now)
    && (forall f {:trigger InTime(g, f.from, f.at)} :: f in s.outbox && f.cdn == cdn ==> InTime(g, f.from, f.at))
  }

  lemma BufferInTime(g: Config, s: State, cdn: string)
    requires Inv(g, s) && CellTimed(g, CellOf(s, cdn), s.now)
    ensures InTime(g, CellOf(s, cdn).since, s.now)
  {
    if cdn in s.cells {
      assert CellOk(g, s, cdn);
    }
  }

  lemma SubmitTimed(g: Config, s: State, cdn: string, url: string)
    requires g.quiet >= 0.0 && g.maxAge >= 0.0 && Inv(g, s) && TimedInv(g, s, cdn) && s.lock.Free?
    ensures var sub := Sub(cdn, url, s.now);
      var c := Recorded(s, sub).cells[cdn];
      CellTimed(g, c, s.now) && InTime(g, c.since, s.now)
  {
    BufferInTime(g, s, cdn);
    if cdn in s.cells {
      assert CellOk(g, s, cdn);
    }
    AddedTimed(g, CellOf(s, cdn), Sub(cdn, url, s.now));
  }

  lemma AddedTimed(g: Config, c: Cell, sub: Sub)
    requires g.quiet >= 0.0 && g.maxAge >= 0.0 && CellTimed(g, c, sub.at) && InTime(g, c.since, sub.at)
    ensures CellTimed(g, Added(c, sub), sub.at) && InTime(g, Added(c, sub).since, sub.at)
  {
  }

  lemma TaskTimedStep(g: Config, s: State, e: Event)
    requires g.quiet >= 0.0 && g.maxAge >= 0.0 && Enabled(s, e) && (e.Wake? || e.Reassess? || e.Timeout? || e.FlushNow?)
    requires e.cdn in s.cells && CellOk(g, s, e.cdn) && CellTimed(g, s.cells[e.cdn], s.now)
    ensures var t := Next(g, s, e); e.cdn in t.cells && CellTimed(g, t.cells[e.cdn], t.now)
  {
  }

  lemma OtherTimedStep(g: Config, s: State, e: Event, cdn: string)
    requires CellTimed(g, CellOf(s, cdn), s.now) && NotStranded(CellOf(s, cdn))
    requires Enabled(s, e) && TimelyFor(s, e, cdn)
    requires !((e.Submit? || e.Wake? || e.Reassess? || e.Timeout? || e.FlushNow?) && e.cdn == cdn)
    ensures var t := Next(g, s, e); CellTimed(g, CellOf(t, cdn), t.now)
  {
  }

  lemma CellTimedStep(g: Config, s: State, e: Event, cdn: string)
    requires g.quiet >= 0.0 && g.maxAge >= 0.0 && Inv(g, s) && TimedInv(g, s, cdn)
    requires Enabled(s, e) && TimelyFor(s, e, cdn)
    ensures var t := Next(g, s, e); CellTimed(g, CellOf(t, cdn), t.now)
  {
    if cdn in s.cells {
      assert CellOk(g, s, cdn);
    }
    if e.Submit? && e.cdn == cdn {
      SubmitTimed(g, s, cdn, e.url);
    } else if (e.Wake? || e.Reassess? || e.Timeout? || e.FlushNow?) && e.cdn == cdn {
      TaskTimedStep(g, s, e);
    } else {
      OtherTimedStep(g, s, e, cdn);
    }
  }

  lemma HandTimedStep(g: Config, s: State, e: Event, cdn: string)
    requires g.quiet >= 0.0 && g.maxAge >= 0.0 && Inv(g, s) && TimedInv(g, s, cdn)
    requires Enabled(s, e) && TimelyFor(s, e, cdn)
    ensures var t := Next(g, s, e); InTime(g, InHand(t.lock, cdn), t.now)
  {
    match e
    case Submit(c, url) =>
      if c == cdn {
        SubmitTimed(g, s, cdn, url);
      }
    case FlushNow(_) => BufferInTime(g, s, cdn);
    case DrainNext(_) => BufferInTime(g, s, cdn);
    case _ =>
  }

  lemma StepKeepsTimed(g: Config, s: State, e: Event, cdn: string)
    requires g.quiet >= 0.0 && g.maxAge >= 0.0 && Inv(g, s) && TimedInv(g, s, cdn)
    requires Enabled(s, e) && TimelyFor(s, e, cdn)
    ensures Inv(g, Next(g, s, e)) && TimedInv(g, Next(g, s, e), cdn)
  {
    var t := Next(g, s, e);
    StepKeepsInv(g, s, e);
    HandTimedStep(g, s, e, cdn);
    CellTimedStep(g, s, e, cdn);
    forall f | f in t.outbox && f.cdn == cdn ensures InTime(g, f.from, f.at) {
      if f in s.outbox {
        assert InTime(g, f.from, f.at);
      }
    }
  }

  lemma {:induction false} RunKeepsTimed(g: Config, s: State, es: seq<Event>, cdn: string)
    requires g.quiet >= 0.0 && g.maxAge >= 0.0 && Inv(g, s) && TimedInv(g, s, cdn) && IsTimedRunFor(g, s, es, cdn)
    ensures IsRun(g, s, es) && Inv(g, After(g, s, es)) && TimedInv(g, After(g, s, es), cdn)
    decreases |es|
  {
    if es != [] {
      StepKeepsTimed(g, s, es[0], cdn);
      RunKeepsTimed(g, Next(g, s, es[0]), es[1..], cdn);
    }
  }

  /** What the CDN still has in hand and in its buffer is not yet due. */
  ghost predicate NothingOverdue(g: Config, s: State, cdn: string) {
    && InTime(g, InHand(s.lock, cdn), s.now) && InTime(g, CellOf(s, cdn).since, s.now)
    && (cdn in s.cells && s.cells[cdn].buffer != {} ==>
          && s.cells[cdn].first.Some? && s.cells[cdn].last.Some?
          && s.now <= s.cells[cdn].first.value + g.maxAge && s.now <= s.cells[cdn].last.value + g.quiet)
  }

  /** A CDN that is not kept waiting keeps its deadlines, whatever the others do, and whether or not their
      enqueues take time or fail: every submission reaches the queue within the maximal age, the
      last of its batch within the quiet window. */
  lemma OwnDeadlinesAreMet(g: Config, t: real, es: seq<Event>, cdn: string)
    requires g.quiet >= 0.0 && g.maxAge >= 0.0 && IsTimedRunFor(g, Init(t), es, cdn)
    ensures IsRun(g, Init(t), es)
    ensures var s := After(g, Init(t), es);
      (forall f :: f in s.outbox && f.cdn == cdn ==> InTime(g, f.from, f.at)) && NothingOverdue(g, s, cdn)
  {
    InitInv(g, t);
    RunKeepsTimed(g, Init(t), es, cdn);
    var s := After(g, Init(t), es);
    BufferInTime(g, s, cdn);
    forall f | f in s.outbox && f.cdn == cdn ensures InTime(g, f.from, f.at) {
    }
  }

  /** And if time passes only while nobody has anything to do, every CDN does. */
  lemma DeadlinesAreMet(g: Config, t: real, es: seq<Event>)
    requires g.quiet >= 0.0 && g.maxAge >= 0.0 && IsTimedRun(g, Init(t), es)
    ensures IsRun(g, Init(t), es)
    ensures var s := After(g, Init(t), es);
      (forall f :: f in s.outbox ==> InTime(g, f.from, f.at)) && forall cdn :: NothingOverdue(g, s, cdn)
  {
    TimedRunIsRun(g, Init(t), es);
    forall cdn ensures NothingOverdue(g, After(g, Init(t), es), cdn) {
      TimedForEach(g, Init(t), es, cdn);
      OwnDeadlinesAreMet(g, t, es, cdn);
    }
    forall f | f in After(g, Init(t), es).outbox ensures InTime(g, f.from, f.at) {
      TimedForEach(g, Init(t), es, f.cdn);
      OwnDeadlinesAreMet(g, t, es, f.cdn);
    }
  }

  // ---------------------------------------------------------------- time does pass

  ghost function SumOver(f: string -> nat, keys: set<string>): nat {
    if keys == {} then 0
    else
      var k :| k in keys;
      f(k) + SumOver(f, keys - {k})
  }

  lemma {:induction false} SumSplits(f: string -> nat, keys: set<string>, x: string)
    requires x in keys
    ensures SumOver(f, keys) == f(x) + SumOver(f, keys - {x})
    decreases |keys|
  {
    var k :| k in keys && SumOver(f, keys) == f(k) + SumOver(f, keys - {k});
    if k != x {
      SumSplits(f, keys - {k}, x);
      SumSplits(f, keys - {x}, k);
      assert keys - {k} - {x} == keys - {x} - {k};
    }
  }

  lemma {:induction false} SumSame(f: string -> nat, h: string -> nat, keys: set<string>)
    requires forall k :: k in keys ==> f(k) == h(k)
    ensures SumOver(f, keys) == SumOver(h, keys)
    decreases |keys|
  {
    if keys != {} {
      var k :| k in keys && SumOver(f, keys) == f(k) + SumOver(f, keys - {k});
      SumSplits(h, keys, k);
      SumSame(f, h, keys - {k});
    }
  }

  /** How many steps the task of a cell can take before it waits again, at most. */
  function Steps(c: Cell): nat {
    (if c.wake then 10 else 0) +
    match c.task
    case Inner => 5
    case Sleeping(_) => 4
    case FlushDue => 3
    case TimedOut => 3
    case Flushing => 1
    case _ => 0
  }

  function LockSteps(lock: Lock): nat {
    match lock
    case Free => 0
    case Draining(rest) => 2 * |rest| + 1
    case Enqueueing(_, _, _, BySubmit) => 1
    case Enqueueing(_, _, _, ByTask) => 1
    case Enqueueing(_, _, _, ByFlushAll(rest)) => 2 * |rest| + 2
  }

  ghost function StepsOf(s: State): string -> nat {
    (cdn: string) => Steps(CellOf(s, cdn))
  }

  ghost function Pending(s: State): nat {
    SumOver(StepsOf(s), s.cells.Keys) + LockSteps(s.lock)
  }

  /** The steps of the batcher itself, as against submissions, calls of `flush_all`, and time. */
  predicate Internal(e: Event) {
    !e.Submit? && !e.FlushAll? && !e.Tick?
  }

  lemma OneCellSteps(s: State, t: State, cdn: string)
    requires cdn in s.cells && t.cells.Keys == s.cells.Keys
    requires forall c :: c in s.cells && c != cdn ==> t.cells[c] == s.cells[c]
    ensures SumOver(StepsOf(t), t.cells.Keys) - SumOver(StepsOf(s), s.cells.Keys)
         == Steps(t.cells[cdn]) - Steps(s.cells[cdn])
  {
    SumSplits(StepsOf(s), s.cells.Keys, cdn);
    SumSplits(StepsOf(t), s.cells.Keys, cdn);
    SumSame(StepsOf(s), StepsOf(t), s.cells.Keys - {cdn});
  }

  lemma WaitingStepsRunOut(g: Config, s: State, e: Event)
    requires Enabled(s, e) && (e.Wake? || e.Reassess? || e.Timeout?)
    ensures Pending(Next(g, s, e)) < Pending(s)
  {
    var t := Next(g, s, e);
    assert t.cells == s.cells[e.cdn := t.cells[e.cdn]] && Steps(t.cells[e.cdn]) < Steps(s.cells[e.cdn]);
    OneCellSteps(s, t, e.cdn);
  }

  lemma FlushRunsOut(g: Config, s: State, cdn: string)
    requires Enabled(s, FlushNow(cdn))
    ensures Pending(Next(g, s, FlushNow(cdn))) < Pending(s)
  {
    var t := Next(g, s, FlushNow(cdn));
    assert t.cells == s.cells[cdn := t.cells[cdn]];
    OneCellSteps(s, t, cdn);
  }

  lemma EnqueueRunsOut(g: Config, s: State, cdn: string, list: seq<string>)
    requires Inv(g, s) && Enabled(s, EnqueueOk(cdn, list))
    ensures Pending(Next(g, s, EnqueueOk(cdn, list))) < Pending(s)
  {
    var t := Next(g, s, EnqueueOk(cdn, list));
    assert t.cells == s.cells[cdn := t.cells[cdn]];
    OneCellSteps(s, t, cdn);
  }

  lemma DrainRunsOut(g: Config, s: State, cdn: string)
    requires Enabled(s, DrainNext(cdn))
    ensures Pending(Next(g, s, DrainNext(cdn))) < Pending(s)
  {
    var t := Next(g, s, DrainNext(cdn));
    assert t.cells == s.cells[cdn := t.cells[cdn]];
    OneCellSteps(s, t, cdn);
    assert |s.lock.rest - {cdn}| == |s.lock.rest| - 1;
  }

  /** Left alone the batcher cannot go on for ever without letting time pass. */
  lemma InternalStepsRunOut(g: Config, s: State, e: Event)
    requires Inv(g, s) && Enabled(s, e) && Timely(s, e) && Internal(e)
    ensures Pending(Next(g, s, e)) < Pending(s)
  {
    match e
    case DrainEnd => SumSame(StepsOf(s), StepsOf(Next(g, s, e)), s.cells.Keys);
    case EnqueueOk(cdn, list) => EnqueueRunsOut(g, s, cdn, list);
    case DrainNext(cdn) => DrainRunsOut(g, s, cdn);
    case FlushNow(cdn) => FlushRunsOut(g, s, cdn);
    case _ => WaitingStepsRunOut(g, s, e);
  }

  lemma {:induction false} NextAlarm(s: State, keys: set<string>) returns (to: real)
    requires keys <= s.cells.Keys && forall c :: c in keys ==> Calm(s.cells[c], s.now)
    requires forall c :: c in keys ==> s.cells[c].task != Sleeping(s.now)
    ensures to > s.now && forall c :: c in keys ==> Calm(s.cells[c], to)
    decreases |keys|
  {
    to := s.now + 1.0;
    if keys != {} {
      var c :| c in keys;
      to := NextAlarm(s, keys - {c});
      if s.cells[c].task.Sleeping? && s.cells[c].task.until < to {
        to := s.cells[c].task.until;
      }
    }
  }

  /** And when none of its steps is left, time can pass. */
  lemma TimeCanPass(g: Config, s: State) returns (to: real)
    requires Inv(g, s) && forall e :: Internal(e) && Timely(s, e) ==> !Enabled(s, e)
    ensures to > s.now && Enabled(s, Tick(to)) && Timely(s, Tick(to))
  {
    LockIsFree(g, s);
    forall c | c in s.cells ensures Calm(s.cells[c], s.now) && s.cells[c].task != Sleeping(s.now) {
      assert CellOk(g, s, c);
      assert !Enabled(s, Wake(c)) && !Enabled(s, Reassess(c)) && !Enabled(s, Timeout(c)) && !Enabled(s, FlushNow(c));
    }
    to := NextAlarm(s, s.cells.Keys);
  }

  lemma LockIsFree(g: Config, s: State)
    requires Inv(g, s) && forall e :: Internal(e) && Timely(s, e) ==> !Enabled(s, e)
    ensures s.lock.Free?
  {
    match s.lock
    case Free =>
    case Draining(rest) =>
      if rest == {} {
        assert Internal(DrainEnd) && Timely(s, DrainEnd);
      } else {
        var c :| c in rest;
        assert Internal(DrainNext(c)) && Timely(s, DrainNext(c));
      }
    case Enqueueing(cdn, urls, _, _) =>
      var list := AnyListing(urls);
      assert Internal(EnqueueOk(cdn, list)) && Timely(s, EnqueueOk(cdn, list));
  }

  ghost predicate NobodyDead(s: State) {
    forall c :: c in s.cells ==> !s.cells[c].task.Dead?
  }

  /** Nothing in the buffers and nobody in the lock. */
  ghost predicate Empty(s: State) {
    s.lock.Free? && forall c :: c in s.cells ==> s.cells[c].buffer == {}
  }

  /** As long as something is left the batcher can make a step towards its flush, perhaps after a wait. */
  lemma CanMove(g: Config, s: State) returns (to: real, e: Event)
    requires Inv(g, s) && NobodyDead(s) && !Empty(s)
    ensures s.now <= to && Internal(e) && !e.EnqueueFails? && !e.Cancel? && Enabled(Next(g, s, Tick(to)), e)
  {
    to := s.now;
    match s.lock
    case Free =>
      var c :| c in s.cells && s.cells[c].buffer != {};
      assert CellOk(g, s, c);
      match s.cells[c].task {
        case Outer => e := Wake(c);
        case Inner => e := Reassess(c);
        case Sleeping(until) =>
          to := if until <= s.now then s.now else until;
          e := Timeout(c);
        case _ => e := FlushNow(c);
      }
    case Draining(rest) =>
      if rest == {} {
        e := DrainEnd;
      } else {
        var c :| c in rest;
        e := DrainNext(c);
      }
    case Enqueueing(cdn, urls, _, _) =>
      var list := AnyListing(urls);
      e := EnqueueOk(cdn, list);
  }

  lemma NobodyDies(g: Config, s: State, e: Event)
    requires NobodyDead(s) && Enabled(s, e) && !e.EnqueueFails? && !e.Cancel?
    ensures NobodyDead(Next(g, s, e))
  {
  }

  lemma WaitingKeepsPending(g: Config, s: State, to: real)
    requires s.now <= to
    ensures Pending(Next(g, s, Tick(to))) == Pending(s)
  {
    SumSame(StepsOf(s), StepsOf(Next(g, s, Tick(to))), s.cells.Keys);
  }

  /** Which brings it nearer its end. */
  lemma MoveLowers(g: Config, s: State, to: real, e: Event)
    requires Inv(g, s) && NobodyDead(s) && s.now <= to && Internal(e) && !e.EnqueueFails? && !e.Cancel?
    requires Enabled(Next(g, s, Tick(to)), e)
    ensures var t := Next(g, Next(g, s, Tick(to)), e); Inv(g, t) && NobodyDead(t) && Pending(t) < Pending(s)
  {
    var mid := Next(g, s, Tick(to));
    StepKeepsInv(g, s, Tick(to));
    WaitingKeepsPending(g, s, to);
    NobodyDies(g, s, Tick(to));
    InternalStepsRunOut(g, mid, e);
    StepKeepsInv(g, mid, e);
    NobodyDies(g, mid, e);
  }
}
