/** The other side of the deadlines: no batch leaves before it should.  A batch leaves because it is
    full, because it is due, because of `flush_all`, or because a submission and the timeout of the
    wait fell on the same moment. */
module BatcherPatience {
  import opened Prelude
  import opened Batcher
  import opened BatcherRuns
  import opened BatcherTiming
  import opened BatcherShutdown

  predicate DueOrJustTouched(g: Config, c: Cell, now: real) {
    c.first.Some? && c.last.Some? && (Deadline(g, c) <= now || c.last.value == now)
  }

  /** A set wake event means a submission just now; an alarm without one is set for the present
      contents; a task about to flush has its reason. */
  predicate Patient(g: Config, c: Cell, now: real) {
    c.buffer != {} ==>
      && c.first.Some? && c.last.Some?
      && (c.wake ==> c.last.value == now)
      && (c.task.Sleeping? && !c.wake ==> c.task.until == Deadline(g, c))
      && (c.task.FlushDue? || c.task.TimedOut? ==> DueOrJustTouched(g, c, now))
  }

  lemma PatientSubmit(g: Config, s: State, cdn: string, url: string)
    requires Inv(g, s) && s.lock.Free? && (cdn in s.cells ==> Patient(g, s.cells[cdn], s.now))
    ensures var t := Next(g, s, Submit(cdn, url)); Patient(g, t.cells[cdn], t.now)
  {
    RecordedCell(g, s, Sub(cdn, url, s.now));
  }

  lemma PatientTask(g: Config, s: State, e: Event)
    requires Enabled(s, e) && (e.Wake? || e.Reassess? || e.Timeout? || e.FlushNow?)
    requires e.cdn in s.cells && CellOk(g, s, e.cdn) && Patient(g, s.cells[e.cdn], s.now)
    ensures var t := Next(g, s, e); e.cdn in t.cells && Patient(g, t.cells[e.cdn], t.now)
  {
  }

  lemma PatientStep(g: Config, s: State, e: Event, cdn: string)
    requires Inv(g, s) && TimedInv(g, s, cdn) && Patient(g, CellOf(s, cdn), s.now)
    requires Enabled(s, e) && TimelyFor(s, e, cdn)
    ensures Patient(g, CellOf(Next(g, s, e), cdn), Next(g, s, e).now)
  {
    if cdn in s.cells {
      assert CellOk(g, s, cdn);
    }
    if e.Submit? && e.cdn == cdn {
      PatientSubmit(g, s, cdn, e.url);
    } else if (e.Wake? || e.Reassess? || e.Timeout? || e.FlushNow?) && e.cdn == cdn {
      PatientTask(g, s, e);
    }
  }

  lemma {:induction false} RunStaysPatient(g: Config, s: State, es: seq<Event>, cdn: string)
    requires g.quiet >= 0.0 && g.maxAge >= 0.0
    requires Inv(g, s) && TimedInv(g, s, cdn) && Patient(g, CellOf(s, cdn), s.now) && IsTimedRunFor(g, s, es, cdn)
    ensures IsRun(g, s, es)
    ensures var t := After(g, s, es); Inv(g, t) && TimedInv(g, t, cdn) && Patient(g, CellOf(t, cdn), t.now)
    decreases |es|
  {
    if es != [] {
      StepKeepsTimed(g, s, es[0], cdn);
      PatientStep(g, s, es[0], cdn);
      RunStaysPatient(g, Next(g, s, es[0]), es[1..], cdn);
    }
  }

  /** A step that takes what is in the CDN's buffer. */
  predicate Takes(s: State, t: State, cdn: string) {
    t.lock.Enqueueing? && t.lock.cdn == cdn && !s.lock.Enqueueing?
  }

  /** The quiet window after the last submission ends now, or the first is now of maximal age, or the last
      is made now. */
  predicate DueNow(g: Config, since: seq<Sub>, now: real) {
    && since != []
    && (now == since[|since| - 1].at + g.quiet || now == since[0].at + g.maxAge || now == since[|since| - 1].at)
  }

  lemma FlushIsDue(g: Config, s: State, cdn: string)
    requires Inv(g, s) && TimedInv(g, s, cdn) && Patient(g, CellOf(s, cdn), s.now)
    requires Enabled(s, FlushNow(cdn)) && s.cells[cdn].buffer != {}
    ensures DueNow(g, CellOf(s, cdn).since, s.now)
  {
    assert CellOk(g, s, cdn);
  }

  /** Whenever in a run in time for its CDN a batch is taken out of its buffer: by the submission that
      filled it, by `flush_all`, or by its task at the very moment the quiet window after the last
      submission ends, or the first is of maximal age, or the last was made. */
  lemma EveryFlushHasItsReason(g: Config, t: real, es: seq<Event>, e: Event, cdn: string)
    requires g.quiet >= 0.0 && g.maxAge >= 0.0 && IsTimedRunFor(g, Init(t), es, cdn)
    requires IsRun(g, Init(t), es) && Enabled(After(g, Init(t), es), e)
    requires Takes(After(g, Init(t), es), Next(g, After(g, Init(t), es), e), cdn)
    ensures var s := After(g, Init(t), es);
      match e
      case Submit(c, url) => c == cdn && |CellOf(s, cdn).buffer + {url}| >= g.maxSize
      case DrainNext(c) => c == cdn
      case FlushNow(c) =>
        c == cdn && DueNow(g, CellOf(s, cdn).since, s.now)
      case _ => false
  {
    InitInv(g, t);
    RunStaysPatient(g, Init(t), es, cdn);
    if e.FlushNow? {
      FlushIsDue(g, After(g, Init(t), es), e.cdn);
    }
  }

  /** The last case is real: a URL submitted in the moment the wait for an older one gives up leaves at
      once, though its own quiet window has only begun. */
  lemma TieFlushesEarly(g: Config, cdn: string, url: string)
    requires 0.0 < g.quiet < g.maxAge && g.maxSize >= 2
    ensures var es := Sleeps(g, cdn, url) + [Submit(cdn, url), Timeout(cdn)];
      && IsTimedRun(g, Init(0.0), es) && IsRun(g, Init(0.0), es)
      && var s := After(g, Init(0.0), es);
         && Enabled(s, FlushNow(cdn)) && Takes(s, Next(g, s, FlushNow(cdn)), cdn)
         && var since := s.cells[cdn].since;
            since != [] && s.now < since[|since| - 1].at + g.quiet && s.now < since[0].at + g.maxAge
  {
    var s0, es := Init(0.0), Sleeps(g, cdn, url);
    FallsAsleep(g, cdn, url);
    TimedRunExtends(g, s0, es, Submit(cdn, url));
    assert {url} + {url} == {url} && |{url}| == 1;
    TimedRunExtends(g, s0, es + [Submit(cdn, url)], Timeout(cdn));
    assert es + [Submit(cdn, url)] + [Timeout(cdn)] == es + [Submit(cdn, url), Timeout(cdn)];
    InitInv(g, 0.0);
    RunKeepsInv(g, s0, es + [Submit(cdn, url), Timeout(cdn)]);
    assert CellOk(g, After(g, s0, es + [Submit(cdn, url), Timeout(cdn)]), cdn);
  }

  function Sleeps(g: Config, cdn: string, url: string): seq<Event> {
    [Submit(cdn, url), Wake(cdn), Reassess(cdn), Tick(g.quiet)]
  }

  lemma {:induction false} TimedRunExtends(g: Config, s: State, es: seq<Event>, e: Event)
    requires IsTimedRun(g, s, es) && IsRun(g, s, es) && Enabled(After(g, s, es), e) && Timely(After(g, s, es), e)
    ensures IsTimedRun(g, s, es + [e]) && IsRun(g, s, es + [e])
    ensures After(g, s, es + [e]) == Next(g, After(g, s, es), e)
    decreases |es|
  {
    RunExtends(g, s, es, e);
    if es == [] {
      assert (es + [e])[1..] == [];
    } else {
      assert (es + [e])[1..] == es[1..] + [e];
      TimedRunExtends(g, Next(g, s, es[0]), es[1..], e);
    }
  }

  lemma FallsAsleep(g: Config, cdn: string, url: string)
    requires 0.0 < g.quiet < g.maxAge && g.maxSize >= 2
    ensures var s0, es := Init(0.0), Sleeps(g, cdn, url);
      && IsTimedRun(g, s0, es) && IsRun(g, s0, es) && After(g, s0, es).now == g.quiet
      && Alone(After(g, s0, es), cdn, Cell({url}, Some(0.0), Some(0.0), false, Sleeping(g.quiet), []))
  {
    var s0, es := Init(0.0), Sleeps(g, cdn, url);
    FirstWait(g, cdn, url);
    assert UntilFailure(g, cdn, url)[..3] == es[..3];
    TicklessIsTimed(g, s0, es[..3]);
    var s := After(g, s0, es[..3]);
    assert Calm(s.cells[cdn], g.quiet);
    TimedRunExtends(g, s0, es[..3], Tick(g.quiet));
    assert es[..3] + [Tick(g.quiet)] == es;
  }

  lemma {:induction false} TicklessIsTimed(g: Config, s: State, es: seq<Event>)
    requires IsRun(g, s, es) && forall k :: 0 <= k < |es| ==> !es[k].Tick? && !Fatal(es[k])
    ensures IsTimedRun(g, s, es)
    decreases |es|
  {
    if es != [] {
      assert !es[0].Tick? && !Fatal(es[0]);
      TicklessIsTimed(g, Next(g, s, es[0]), es[1..]);
    }
  }
}
