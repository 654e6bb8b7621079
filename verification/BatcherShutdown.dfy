/** What `flush_all` and a graceful shutdown achieve, and what a failed enqueue costs. */
module BatcherShutdown {
  import opened Prelude
  import opened Batcher
  import opened BatcherRuns

  /** `flush_all` holds the lock, and the buffers it is done with are empty. */
  ghost predicate DrainedSoFar(s: State) {
    match s.lock
    case Draining(rest) => EmptyOutside(s, rest)
    case Enqueueing(_, _, _, ByFlushAll(rest)) => EmptyOutside(s, rest)
    case _ => false
  }

  ghost predicate EmptyOutside(s: State, rest: set<string>) {
    forall c :: c in s.cells && c !in rest ==> s.cells[c].buffer == {}
  }

  lemma {:induction false} FlushAllProceeds(g: Config, s: State, es: seq<Event>)
    requires DrainedSoFar(s) && IsRun(g, s, es)
    requires forall k :: 0 <= k < |es| ==> !es[k].DrainEnd? && !es[k].EnqueueFails?
    ensures DrainedSoFar(After(g, s, es))
    decreases |es|
  {
    if es != [] {
      FlushAllProceeds(g, Next(g, s, es[0]), es[1..]);
    }
  }

  /** A `flush_all` that runs to its end, whatever the other tasks do meanwhile, leaves every buffer
      empty. */
  lemma FlushAllEmptiesBuffers(g: Config, s: State, during: seq<Event>)
    requires IsRun(g, s, [FlushAll] + during + [DrainEnd])
    requires forall k :: 0 <= k < |during| ==> !during[k].DrainEnd? && !during[k].EnqueueFails?
    ensures var t := After(g, s, [FlushAll] + during + [DrainEnd]); t.lock.Free? && EmptyOutside(t, {})
  {
    RunsJoin(g, s, [FlushAll] + during, [DrainEnd]);
    RunsJoin(g, s, [FlushAll], during);
    FlushAllProceeds(g, Next(g, s, FlushAll), during);
  }

  predicate OfTask(e: Event) {
    e.Wake? || e.Reassess? || e.Timeout? || e.FlushNow?
  }

  lemma {:induction false} DeadTasksRest(g: Config, s: State, es: seq<Event>)
    requires IsRun(g, s, es) && (forall c :: c in s.cells ==> s.cells[c].task.Dead?)
    requires forall k :: 0 <= k < |es| ==> !es[k].Submit?
    ensures forall k :: 0 <= k < |es| ==> !OfTask(es[k])
    decreases |es|
  {
    if es != [] {
      assert !es[0].Submit?;
      DeadTasksRest(g, Next(g, s, es[0]), es[1..]);
    }
  }

  /** Once the tasks are cancelled none of them makes a step any more, so that what is then in the buffers
      is left to `flush_all`. */
  lemma CancelEndsTheTasks(g: Config, s: State, es: seq<Event>)
    requires IsRun(g, s, [Cancel] + es) && forall k :: 0 <= k < |es| ==> !es[k].Submit?
    ensures forall k :: 0 <= k < |es| ==> !OfTask(es[k])
  {
    assert ([Cancel] + es)[1..] == es;
    DeadTasksRest(g, Next(g, s, Cancel), es);
  }

  // ---------------------------------------------------------------- losses

  /** The submissions of one CDN that became part of a job. */
  function LandedOf(fs: seq<Flush>, cdn: string): seq<Sub> {
    if fs == [] then []
    else LandedOf(fs[..|fs| - 1], cdn) +
         if fs[|fs| - 1].Landed? && fs[|fs| - 1].cdn == cdn then fs[|fs| - 1].from else []
  }

  predicate AnyDropped(fs: seq<Flush>) {
    exists k :: 0 <= k < |fs| && fs[k].Dropped?
  }

  predicate AnyFailed(es: seq<Event>) {
    exists k :: 0 <= k < |es| && es[k].EnqueueFails?
  }

  lemma {:induction false} LandedUnlessDropped(fs: seq<Flush>, cdn: string)
    ensures |LandedOf(fs, cdn)| <= |FlushedOf(fs, cdn)|
    ensures !AnyDropped(fs) ==> LandedOf(fs, cdn) == FlushedOf(fs, cdn)
    ensures (exists k :: 0 <= k < |fs| && fs[k].Dropped? && fs[k].cdn == cdn && fs[k].from != []) ==>
              |LandedOf(fs, cdn)| < |FlushedOf(fs, cdn)|
  {
    if fs != [] {
      LandedUnlessDropped(fs[..|fs| - 1], cdn);
      assert !AnyDropped(fs) ==> !AnyDropped(fs[..|fs| - 1]) && fs[|fs| - 1].Landed?;
    }
  }

  lemma {:induction false} DroppedIffFailed(g: Config, s: State, es: seq<Event>)
    requires IsRun(g, s, es)
    ensures AnyDropped(After(g, s, es).outbox) <==> AnyDropped(s.outbox) || AnyFailed(es)
    decreases |es|
  {
    if es != [] {
      var t := Next(g, s, es[0]);
      DroppedIffFailed(g, t, es[1..]);
      assert AnyFailed(es) <==> es[0].EnqueueFails? || AnyFailed(es[1..]) by {
        assert forall k :: 0 < k < |es| ==> es[k] == es[1..][k - 1];
      }
      assert AnyDropped(t.outbox) <==> AnyDropped(s.outbox) || es[0].EnqueueFails? by {
        assert s.outbox <= t.outbox;
        if es[0].EnqueueFails? {
          assert t.outbox[|s.outbox|].Dropped?;
        }
        if k :| 0 <= k < |s.outbox| && s.outbox[k].Dropped? {
          assert t.outbox[k].Dropped?;
        }
      }
    }
  }

  lemma {:induction false} FailureLeavesSomethingBehind(g: Config, t: real, es: seq<Event>)
    requires IsRun(g, Init(t), es) && AnyFailed(es)
    ensures exists cdn :: LandedOf(After(g, Init(t), es).outbox, cdn) != SubsOf(After(g, Init(t), es).submitted, cdn)
  {
    InitInv(g, t);
    RunKeepsInv(g, Init(t), es);
    DroppedIffFailed(g, Init(t), es);
    var s := After(g, Init(t), es);
    var k :| 0 <= k < |s.outbox| && s.outbox[k].Dropped?;
    var cdn := s.outbox[k].cdn;
    assert FlushOk(g, s.outbox[k], s.now) && Conserved(s, cdn);
    LandedUnlessDropped(s.outbox, cdn);
  }

  lemma NothingLeftBehind(g: Config, s: State, cdn: string)
    requires Inv(g, s) && s.lock.Free? && EmptyOutside(s, {}) && !AnyDropped(s.outbox)
    ensures LandedOf(s.outbox, cdn) == SubsOf(s.submitted, cdn)
  {
    LandedUnlessDropped(s.outbox, cdn);
    assert Conserved(s, cdn);
    if cdn in s.cells {
      assert CellOk(g, s, cdn);
    }
    assert FlushedOf(s.outbox, cdn) + [] + [] == FlushedOf(s.outbox, cdn);
  }

  /** Without a failure a completed `flush_all` leaves nothing behind. */
  lemma CompletedDrainIsLossless(g: Config, t: real, before: seq<Event>, during: seq<Event>, cdn: string)
    requires IsRun(g, Init(t), before + ([FlushAll] + during + [DrainEnd]))
    requires !AnyFailed(before + ([FlushAll] + during + [DrainEnd]))
    requires forall k :: 0 <= k < |during| ==> !during[k].DrainEnd?
    ensures var s := After(g, Init(t), before + ([FlushAll] + during + [DrainEnd]));
      LandedOf(s.outbox, cdn) == SubsOf(s.submitted, cdn)
  {
    var drain := [FlushAll] + during + [DrainEnd];
    var s := After(g, Init(t), before + drain);
    InitInv(g, t);
    RunKeepsInv(g, Init(t), before + drain);
    DroppedIffFailed(g, Init(t), before + drain);
    RunsJoin(g, Init(t), before, drain);
    forall k | 0 <= k < |during| ensures !during[k].EnqueueFails? {
      assert (before + drain)[|before| + 1 + k] == during[k];
    }
    FlushAllEmptiesBuffers(g, After(g, Init(t), before), during);
    NothingLeftBehind(g, s, cdn);
  }

  /** The shutdown of `Batcher.run`: the debounce tasks are cancelled, what they were doing comes to an
      end, and `flush_all` runs, to its end or into a failing enqueue.  Everything ever submitted is
      then in a job if and only if no enqueue failed, before or during the shutdown, where an
      enqueue in which a task was cancelled counts as failed unless it went through. */
  lemma ShutdownIsLosslessUnlessAnEnqueueFailed(g: Config, t: real, before: seq<Event>, during: seq<Event>, last: Event)
    requires IsRun(g, Init(t), before + ([FlushAll] + during + [last])) && (last.DrainEnd? || last.EnqueueFails?)
    requires forall k :: 0 <= k < |during| ==> !during[k].DrainEnd?
    ensures var es := before + ([FlushAll] + during + [last]);
      var s := After(g, Init(t), es);
      (forall cdn :: LandedOf(s.outbox, cdn) == SubsOf(s.submitted, cdn)) <==> !AnyFailed(es)
  {
    var es := before + ([FlushAll] + during + [last]);
    if AnyFailed(es) {
      FailureLeavesSomethingBehind(g, t, es);
    } else {
      assert es[|es| - 1] == last;
      forall cdn {
        CompletedDrainIsLossless(g, t, before, during, cdn);
      }
    }
  }

  /** It does happen: with batches of one, a submission whose enqueue is cancelled half way is dropped,
      and no buffer is left for `flush_all` to save. */
  lemma CancelledEnqueueLosesBatch(g: Config, cdn: string, url: string)
    requires g.maxSize <= 1
    ensures var es := [Submit(cdn, url), Cancel, EnqueueFails(cdn)];
      && IsRun(g, Init(0.0), es)
      && var s := After(g, Init(0.0), es);
         && s.lock.Free? && EmptyOutside(s, {})
         && s.submitted == [Sub(cdn, url, 0.0)] && s.outbox == [Dropped(cdn, [Sub(cdn, url, 0.0)], 0.0)]
  {
    var es := [Submit(cdn, url), Cancel, EnqueueFails(cdn)];
    var s0, sub := Init(0.0), Sub(cdn, url, 0.0);
    RunExtends(g, s0, [], es[0]);
    var s1 := After(g, s0, [] + [es[0]]);
    assert {} + {url} == {url} && |{url}| == 1;
    assert s1.lock == Enqueueing(cdn, {url}, [sub], BySubmit) && s1.cells.Keys == {cdn} && s1.cells[cdn].buffer == {};
    RunExtends(g, s0, [] + [es[0]], es[1]);
    RunExtends(g, s0, [] + [es[0]] + [es[1]], es[2]);
    assert [] + [es[0]] + [es[1]] + [es[2]] == es;
  }

  // ---------------------------------------------------------------- a dead task

  function Gain(e: Event, cdn: string): set<string> {
    if e.Submit? && e.cdn == cdn then {e.url} else {}
  }

  /** The URLs submitted to the CDN. */
  function SubmittedTo(es: seq<Event>, cdn: string): set<string> {
    if es == [] then {} else Gain(es[0], cdn) + SubmittedTo(es[1..], cdn)
  }

  ghost predicate DeadOver(s: State, cdn: string, buffer: set<string>) {
    cdn in s.cells && s.cells[cdn].task.Dead? && s.cells[cdn].buffer == buffer
  }

  lemma DeadTaskStep(g: Config, s: State, e: Event, cdn: string, buffer: set<string>)
    requires Enabled(s, e) && e != DrainNext(cdn) && DeadOver(s, cdn, buffer) && |buffer + Gain(e, cdn)| < g.maxSize
    ensures DeadOver(Next(g, s, e), cdn, buffer + Gain(e, cdn))
  {
    if e.Submit? && e.cdn == cdn {
      assert Next(g, s, e) == Recorded(s, Sub(cdn, e.url, s.now));
    } else {
      assert buffer + Gain(e, cdn) == buffer;
    }
  }

  /** A debounce task that died of a failed enqueue is not replaced: what is submitted later collects in
      the buffer, however much time passes, until the size limit or a `flush_all` comes to its rescue. */
  lemma {:induction false} DeadTaskStrandsItsBuffer(g: Config, s: State, es: seq<Event>, cdn: string,
                                                    buffer: set<string>)
    requires IsRun(g, s, es) && DeadOver(s, cdn, buffer) && |buffer + SubmittedTo(es, cdn)| < g.maxSize
    requires DrainNext(cdn) !in es
    ensures DeadOver(After(g, s, es), cdn, buffer + SubmittedTo(es, cdn))
    decreases |es|
  {
    if es == [] {
      assert buffer + {} == buffer;
    } else {
      var more := buffer + Gain(es[0], cdn);
      assert more + SubmittedTo(es[1..], cdn) == buffer + SubmittedTo(es, cdn);
      SubsetSize(more, buffer + SubmittedTo(es, cdn));
      DeadTaskStep(g, s, es[0], cdn, buffer);
      DeadTaskStrandsItsBuffer(g, Next(g, s, es[0]), es[1..], cdn, more);
    }
  }

  /** One CDN, nobody in the lock; history left aside. */
  ghost predicate Alone(s: State, cdn: string, c: Cell) {
    s.lock.Free? && s.cells.Keys == {cdn} && s.cells[cdn].(since := []) == c.(since := [])
  }

  function UntilFailure(g: Config, cdn: string, url: string): seq<Event> {
    [Submit(cdn, url), Wake(cdn), Reassess(cdn), Tick(Min(g.quiet, g.maxAge)), Timeout(cdn), FlushNow(cdn),
     EnqueueFails(cdn)]
  }

  /** And this is reachable, with nothing out of the ordinary but one failing enqueue: the next URL is
      overdue as long as you like. */
  lemma FailureMakesLaterSubmissionsOverdue(g: Config, cdn: string, url: string, to: real)
    requires g.quiet > 0.0 && g.maxAge > 0.0 && g.maxSize >= 2 && to >= Min(g.quiet, g.maxAge)
    ensures var es := UntilFailure(g, cdn, url) + [Submit(cdn, url), Tick(to)];
      && IsRun(g, Init(0.0), es)
      && var s := After(g, Init(0.0), es);
         && s.now == to
         && var at := Some(Min(g.quiet, g.maxAge)); Alone(s, cdn, Cell({url}, at, at, true, Dead, []))
  {
    var s0, d, es := Init(0.0), Min(g.quiet, g.maxAge), UntilFailure(g, cdn, url);
    FirstWait(g, cdn, url);
    FlushThatFails(g, cdn, url);
    RunExtends(g, s0, es, Submit(cdn, url));
    assert {} + {url} == {url} && |{url}| == 1;
    RunExtends(g, s0, es + [Submit(cdn, url)], Tick(to));
    assert es + [Submit(cdn, url)] + [Tick(to)] == es + [Submit(cdn, url), Tick(to)];
  }

  lemma FirstWait(g: Config, cdn: string, url: string)
    requires g.quiet > 0.0 && g.maxAge > 0.0 && g.maxSize >= 2
    ensures var es := UntilFailure(g, cdn, url)[..3];
      && IsRun(g, Init(0.0), es) && After(g, Init(0.0), es).now == 0.0
      && Alone(After(g, Init(0.0), es), cdn,
               Cell({url}, Some(0.0), Some(0.0), false, Sleeping(Min(g.quiet, g.maxAge)), []))
  {
    var s0 := Init(0.0);
    var e0 := [Submit(cdn, url)];
    assert {} + {url} == {url} && |{url}| == 1;
    RunExtends(g, s0, [], Submit(cdn, url));
    assert [] + e0 == e0;
    RunExtends(g, s0, e0, Wake(cdn));
    RunExtends(g, s0, e0 + [Wake(cdn)], Reassess(cdn));
    assert e0 + [Wake(cdn)] + [Reassess(cdn)] == UntilFailure(g, cdn, url)[..3];
  }

  lemma FlushThatFails(g: Config, cdn: string, url: string)
    requires g.quiet > 0.0 && g.maxAge > 0.0 && g.maxSize >= 2
    ensures var es := UntilFailure(g, cdn, url);
      && IsRun(g, Init(0.0), es) && After(g, Init(0.0), es).now == Min(g.quiet, g.maxAge)
      && Alone(After(g, Init(0.0), es), cdn, Cell({}, None, None, false, Dead, []))
  {
    var s0, es := Init(0.0), UntilFailure(g, cdn, url);
    FirstWait(g, cdn, url);
    Alarm(g, s0, es[..3], cdn, url);
    assert es[..3] + [Tick(Min(g.quiet, g.maxAge))] + [Timeout(cdn)] == es[..5];
    FailedFlush(g, s0, es[..5], cdn, url);
    assert es[..5] + [FlushNow(cdn)] + [EnqueueFails(cdn)] == es;
  }

  lemma FailedFlush(g: Config, s0: State, es: seq<Event>, cdn: string, url: string)
    requires IsRun(g, s0, es) && Alone(After(g, s0, es), cdn, Cell({url}, Some(0.0), Some(0.0), false, TimedOut, []))
    ensures var more := es + [FlushNow(cdn)] + [EnqueueFails(cdn)];
      && IsRun(g, s0, more) && After(g, s0, more).now == After(g, s0, es).now
      && Alone(After(g, s0, more), cdn, Cell({}, None, None, false, Dead, []))
  {
    RunExtends(g, s0, es, FlushNow(cdn));
    RunExtends(g, s0, es + [FlushNow(cdn)], EnqueueFails(cdn));
  }

  lemma Alarm(g: Config, s0: State, es: seq<Event>, cdn: string, url: string)
    requires g.quiet > 0.0 && g.maxAge > 0.0 && IsRun(g, s0, es) && After(g, s0, es).now == 0.0
    requires Alone(After(g, s0, es), cdn,
                   Cell({url}, Some(0.0), Some(0.0), false, Sleeping(Min(g.quiet, g.maxAge)), []))
    ensures var more := es + [Tick(Min(g.quiet, g.maxAge))] + [Timeout(cdn)];
      && IsRun(g, s0, more) && After(g, s0, more).now == Min(g.quiet, g.maxAge)
      && Alone(After(g, s0, more), cdn, Cell({url}, Some(0.0), Some(0.0), false, TimedOut, []))
  {
    RunExtends(g, s0, es, Tick(Min(g.quiet, g.maxAge)));
    RunExtends(g, s0, es + [Tick(Min(g.quiet, g.maxAge))], Timeout(cdn));
  }
}
