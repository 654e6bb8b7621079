/** Each CDN on its own: dropping from a run every step of the other CDNs leaves a run in which this
    CDN's dictionaries, task, batches and deadlines are the same. */
module BatcherIsolation {
  import opened Prelude
  import opened Batcher
  import opened BatcherRuns
  import opened BatcherTiming

  /** The part of the state that belongs to one CDN; a lock held for another counts as free, and
      `flush_all` at work on another as being between buffers. */
  ghost function Only(s: State, cdn: string): State {
    State(OnlyCell(s.cells, cdn), OnlyLock(s.lock, cdn), s.now, SubsOf(s.submitted, cdn), FlushesOf(s.outbox, cdn))
  }

  function OnlyCell(cells: map<string, Cell>, cdn: string): map<string, Cell> {
    if cdn in cells then map[cdn := cells[cdn]] else map[]
  }

  function OnlyLock(lock: Lock, cdn: string): Lock {
    match lock
    case Free => Free
    case Draining(rest) => Draining(rest * {cdn})
    case Enqueueing(c, urls, from, holder) =>
      if c == cdn then Enqueueing(c, urls, from, if holder.ByFlushAll? then ByFlushAll(holder.rest * {cdn}) else holder)
      else if holder.ByFlushAll? then Draining(holder.rest * {cdn})
      else Free
  }

  function FlushesOf(fs: seq<Flush>, cdn: string): seq<Flush> {
    if fs == [] then []
    else FlushesOf(fs[..|fs| - 1], cdn) + if fs[|fs| - 1].cdn == cdn then [fs[|fs| - 1]] else []
  }

  /** Time, `flush_all` and cancellation are everybody's; any other step is about its CDN. */
  predicate Concerns(e: Event, cdn: string) {
    match e
    case FlushAll => true
    case DrainEnd => true
    case Cancel => true
    case Tick(_) => true
    case _ => e.cdn == cdn
  }

  function OnlyEvents(es: seq<Event>, cdn: string): seq<Event> {
    if es == [] then []
    else (if Concerns(es[0], cdn) then [es[0]] else []) + OnlyEvents(es[1..], cdn)
  }

  /** The one way another CDN gets through: its failing enqueue makes `flush_all` give up. */
  predicate AbortsFlushAll(s: State, e: Event, cdn: string) {
    e.EnqueueFails? && e.cdn != cdn && s.lock.Enqueueing? && s.lock.holder.ByFlushAll?
  }

  ghost predicate NoAbort(g: Config, s: State, es: seq<Event>, cdn: string)
    requires IsRun(g, s, es)
    decreases |es|
  {
    es == [] || (!AbortsFlushAll(s, es[0], cdn) && NoAbort(g, Next(g, s, es[0]), es[1..], cdn))
  }

  lemma OthersKeepCell(g: Config, s: State, e: Event, cdn: string)
    requires Enabled(s, e) && !Concerns(e, cdn)
    ensures OnlyCell(Next(g, s, e).cells, cdn) == OnlyCell(s.cells, cdn)
  {
  }

  lemma OthersKeepLock(g: Config, s: State, e: Event, cdn: string)
    requires Enabled(s, e) && !Concerns(e, cdn) && !AbortsFlushAll(s, e, cdn)
    ensures OnlyLock(Next(g, s, e).lock, cdn) == OnlyLock(s.lock, cdn)
  {
  }

  lemma OthersKeepHistory(g: Config, s: State, e: Event, cdn: string)
    requires Enabled(s, e) && !Concerns(e, cdn)
    ensures var t := Next(g, s, e);
      t.now == s.now && SubsOf(t.submitted, cdn) == SubsOf(s.submitted, cdn)
      && FlushesOf(t.outbox, cdn) == FlushesOf(s.outbox, cdn)
  {
  }

  /** Another CDN's step is no step here. */
  lemma OthersAreInvisible(g: Config, s: State, e: Event, cdn: string)
    requires Enabled(s, e) && !Concerns(e, cdn) && !AbortsFlushAll(s, e, cdn)
    ensures Only(Next(g, s, e), cdn) == Only(s, cdn)
  {
    OthersKeepCell(g, s, e, cdn);
    OthersKeepLock(g, s, e, cdn);
    OthersKeepHistory(g, s, e, cdn);
  }

  lemma OwnEnabled(s: State, e: Event, cdn: string)
    requires Enabled(s, e) && Concerns(e, cdn)
    ensures Enabled(Only(s, cdn), e)
    ensures Timely(s, e) ==> Timely(Only(s, cdn), e)
  {
  }

  lemma SharedStep(g: Config, s: State, e: Event, cdn: string)
    requires Enabled(s, e) && (e.FlushAll? || e.DrainEnd? || e.Cancel? || e.Tick?)
    ensures Enabled(Only(s, cdn), e) && Only(Next(g, s, e), cdn) == Next(g, Only(s, cdn), e)
  {
    OwnEnabled(s, e, cdn);
    match e
    case FlushAll => assert Only(s, cdn).cells.Keys == s.cells.Keys * {cdn};
    case Cancel => assert Only(Next(g, s, e), cdn).cells == Next(g, Only(s, cdn), e).cells;
    case _ =>
  }

  lemma OwnWithTask(s: State, cdn: string, task: Task)
    requires cdn in s.cells
    ensures Only(WithTask(s, cdn, task), cdn) == WithTask(Only(s, cdn), cdn, task)
  {
  }

  lemma OwnTaskStep(g: Config, s: State, e: Event, cdn: string)
    requires Enabled(s, e) && (e.Wake? || e.Reassess? || e.Timeout?) && e.cdn == cdn
    ensures Enabled(Only(s, cdn), e) && Only(Next(g, s, e), cdn) == Next(g, Only(s, cdn), e)
  {
    OwnWithTask(s, cdn, Next(g, s, e).cells[cdn].task);
  }

  lemma OwnFlushNow(g: Config, s: State, cdn: string)
    requires Enabled(s, FlushNow(cdn))
    ensures var e := FlushNow(cdn); Enabled(Only(s, cdn), e) && Only(Next(g, s, e), cdn) == Next(g, Only(s, cdn), e)
  {
    var task := if s.cells[cdn].buffer == {} then Outer else Flushing;
    OwnWithTask(s, cdn, task);
    OwnFlush(WithTask(s, cdn, task), cdn, ByTask);
  }

  lemma OwnRecorded(s: State, sub: Sub)
    ensures Only(Recorded(s, sub), sub.cdn) == Recorded(Only(s, sub.cdn), sub)
  {
  }

  lemma OwnFlush(s: State, cdn: string, holder: Holder)
    requires cdn in s.cells && !holder.ByFlushAll?
    ensures Only(FlushLocked(s, cdn, holder, Free), cdn) == FlushLocked(Only(s, cdn), cdn, holder, Free)
  {
  }

  lemma OwnSubmit(g: Config, s: State, e: Event, cdn: string)
    requires Enabled(s, e) && e.Submit? && e.cdn == cdn
    ensures Enabled(Only(s, cdn), e) && Only(Next(g, s, e), cdn) == Next(g, Only(s, cdn), e)
  {
    var sub := Sub(cdn, e.url, s.now);
    OwnRecorded(s, sub);
    OwnFlush(Recorded(s, sub), cdn, BySubmit);
  }

  lemma OwnDrain(g: Config, s: State, e: Event, cdn: string)
    requires Enabled(s, e) && e.DrainNext? && e.cdn == cdn
    ensures Enabled(Only(s, cdn), e) && Only(Next(g, s, e), cdn) == Next(g, Only(s, cdn), e)
  {
    OwnEnabled(s, e, cdn);
    assert (s.lock.rest - {cdn}) * {cdn} == s.lock.rest * {cdn} - {cdn};
    assert Only(Next(g, s, e), cdn).cells == Next(g, Only(s, cdn), e).cells;
  }

  lemma OwnOutcome(g: Config, s: State, e: Event, cdn: string)
    requires Enabled(s, e) && (e.EnqueueOk? || e.EnqueueFails?) && e.cdn == cdn
    ensures Enabled(Only(s, cdn), e) && Only(Next(g, s, e), cdn) == Next(g, Only(s, cdn), e)
  {
  }

  lemma OwnStep(g: Config, s: State, e: Event, cdn: string)
    requires Enabled(s, e) && Concerns(e, cdn)
    ensures Enabled(Only(s, cdn), e) && Only(Next(g, s, e), cdn) == Next(g, Only(s, cdn), e)
  {
    match e
    case Submit(_, _) => OwnSubmit(g, s, e, cdn);
    case DrainNext(_) => OwnDrain(g, s, e, cdn);
    case FlushNow(_) => OwnFlushNow(g, s, cdn);
    case EnqueueOk(_, _) => OwnOutcome(g, s, e, cdn);
    case EnqueueFails(_) => OwnOutcome(g, s, e, cdn);
    case FlushAll => SharedStep(g, s, e, cdn);
    case DrainEnd => SharedStep(g, s, e, cdn);
    case Cancel => SharedStep(g, s, e, cdn);
    case Tick(_) => SharedStep(g, s, e, cdn);
    case _ => OwnTaskStep(g, s, e, cdn);
  }

  lemma OnlyEventsStep(es: seq<Event>, cdn: string)
    requires es != []
    ensures Concerns(es[0], cdn) ==>
      && OnlyEvents(es, cdn) != [] && OnlyEvents(es, cdn)[0] == es[0]
      && OnlyEvents(es, cdn)[1..] == OnlyEvents(es[1..], cdn)
    ensures !Concerns(es[0], cdn) ==> OnlyEvents(es, cdn) == OnlyEvents(es[1..], cdn)
  {
  }

  /** `flush_all` is over for the run but not for the projection. */
  ghost predicate OutOfStep(s: State, p: State, cdn: string) {
    p.lock.Draining? && (s.lock.Free? || (s.lock.Enqueueing? && s.lock.cdn != cdn && !s.lock.holder.ByFlushAll?))
  }

  lemma StaysOutOfStep(g: Config, s: State, p: State, e: Event, cdn: string)
    requires Enabled(s, e) && OutOfStep(s, p, cdn)
    ensures !Concerns(e, cdn) ==> OutOfStep(Next(g, s, e), p, cdn)
    ensures Concerns(e, cdn) && Enabled(p, e) ==> OutOfStep(Next(g, s, e), Next(g, p, e), cdn)
  {
  }

  lemma {:induction false} NeverInStepAgain(g: Config, s: State, p: State, es: seq<Event>, cdn: string)
    requires IsRun(g, s, es) && OutOfStep(s, p, cdn)
    ensures !(IsRun(g, p, OnlyEvents(es, cdn)) && After(g, p, OnlyEvents(es, cdn)) == Only(After(g, s, es), cdn))
    decreases |es|
  {
    if es != [] {
      var e := es[0];
      StaysOutOfStep(g, s, p, e, cdn);
      OnlyEventsStep(es, cdn);
      if !Concerns(e, cdn) {
        NeverInStepAgain(g, Next(g, s, e), p, es[1..], cdn);
      } else if Enabled(p, e) {
        NeverInStepAgain(g, Next(g, s, e), Next(g, p, e), es[1..], cdn);
      }
    }
  }

  /** The projection of a run is a run, and leads to the projection of its last state, if and only if
      no other CDN's failing enqueue cuts a `flush_all` short. */
  lemma {:induction false} RunProjects(g: Config, s: State, es: seq<Event>, cdn: string)
    requires IsRun(g, s, es)
    ensures IsRun(g, Only(s, cdn), OnlyEvents(es, cdn))
         && After(g, Only(s, cdn), OnlyEvents(es, cdn)) == Only(After(g, s, es), cdn)
       <==> NoAbort(g, s, es, cdn)
    decreases |es|
  {
    if es != [] {
      var t := Next(g, s, es[0]);
      OnlyEventsStep(es, cdn);
      if AbortsFlushAll(s, es[0], cdn) {
        NeverInStepAgain(g, t, Only(s, cdn), es[1..], cdn);
      } else {
        RunProjects(g, t, es[1..], cdn);
        if Concerns(es[0], cdn) {
          OwnStep(g, s, es[0], cdn);
        } else {
          OthersAreInvisible(g, s, es[0], cdn);
        }
      }
    }
  }

  /** Such a failure does happen, and leaves the buffers behind it as they are. */
  lemma FailureAbortsFlushAll(g: Config, failing: string, cdn: string, url: string)
    requires g.maxSize >= 2 && failing != cdn
    ensures var es := [Submit(failing, url), Submit(cdn, url), FlushAll, DrainNext(failing), EnqueueFails(failing)];
      && IsRun(g, Init(0.0), es) && !NoAbort(g, Init(0.0), es, cdn)
      && var s := After(g, Init(0.0), es); s.lock.Free? && cdn in s.cells && s.cells[cdn].buffer == {url}
  {
    var es := [Submit(failing, url), Submit(cdn, url), FlushAll, DrainNext(failing), EnqueueFails(failing)];
    var s0 := Init(0.0);
    assert {} + {url} == {url} && |{url}| == 1;
    RunExtends(g, s0, [], es[0]);
    assert [] + [es[0]] == es[..1];
    RunExtends(g, s0, es[..1], es[1]);
    assert es[..1] + [es[1]] == es[..2] && After(g, s0, es[..2]).cells.Keys == {failing, cdn};
    RunExtends(g, s0, es[..2], es[2]);
    assert es[..2] + [es[2]] == es[..3];
    RunExtends(g, s0, es[..3], es[3]);
    assert es[..3] + [es[3]] == es[..4];
    RunExtends(g, s0, es[..4], es[4]);
    assert es[..4] + [es[4]] == es;
    AbortAtTheEnd(g, s0, es[..4], es[4], cdn);
  }

  lemma {:induction false} AbortAtTheEnd(g: Config, s: State, es: seq<Event>, e: Event, cdn: string)
    requires IsRun(g, s, es) && IsRun(g, s, es + [e]) && AbortsFlushAll(After(g, s, es), e, cdn)
    ensures !NoAbort(g, s, es + [e], cdn)
    decreases |es|
  {
    if es != [] {
      assert (es + [e])[1..] == es[1..] + [e];
      AbortAtTheEnd(g, Next(g, s, es[0]), es[1..], e, cdn);
    }
  }

  /** The same in time: a timed run projects to a timed run. */
  lemma {:induction false} TimedRunProjects(g: Config, s: State, es: seq<Event>, cdn: string)
    requires IsTimedRun(g, s, es)
    ensures IsTimedRun(g, Only(s, cdn), OnlyEvents(es, cdn))
    decreases |es|
  {
    if es != [] {
      TimedRunProjects(g, Next(g, s, es[0]), es[1..], cdn);
      OnlyEventsStep(es, cdn);
      if Concerns(es[0], cdn) {
        OwnStep(g, s, es[0], cdn);
        OwnEnabled(s, es[0], cdn);
      } else {
        OthersAreInvisible(g, s, es[0], cdn);
      }
    }
  }

  /** What an enqueue under way holds for the CDN. */
  function HeldFor(lock: Lock, cdn: string): Option<(set<string>, seq<Sub>)> {
    if lock.Enqueueing? && lock.cdn == cdn then Some((lock.urls, lock.from)) else None
  }

  /** Two states agree on everything of one CDN; the lock may be with different others. */
  ghost predicate Agree(s: State, u: State, cdn: string) {
    Only(u, cdn) == Only(s, cdn).(lock := OnlyLock(u.lock, cdn)) && HeldFor(s.lock, cdn) == HeldFor(u.lock, cdn)
  }

  lemma OthersKeepHeld(g: Config, s: State, e: Event, cdn: string)
    requires Enabled(s, e) && !Concerns(e, cdn)
    ensures HeldFor(Next(g, s, e).lock, cdn) == HeldFor(s.lock, cdn)
  {
  }

  /** A state in step with s stays so when s makes a step of another CDN. */
  lemma OthersKeepAgreement(g: Config, s: State, e: Event, u: State, cdn: string)
    requires Enabled(s, e) && !Concerns(e, cdn)
    ensures Agree(s, u, cdn) ==> Agree(Next(g, s, e), u, cdn)
    ensures Agree(u, s, cdn) ==> Agree(u, Next(g, s, e), cdn)
  {
    OthersKeepCell(g, s, e, cdn);
    OthersKeepHistory(g, s, e, cdn);
    OthersKeepHeld(g, s, e, cdn);
  }

  /** What a step that is enabled does to all but the lock depends on the lock only through what it holds
      for the CDN. */
  lemma LockIsNoInput(g: Config, s: State, lock: Lock, e: Event, cdn: string)
    requires Enabled(s, e) && Enabled(s.(lock := lock), e) && Concerns(e, cdn)
    requires HeldFor(s.lock, cdn) == HeldFor(lock, cdn)
    ensures var t, u := Next(g, s, e), Next(g, s.(lock := lock), e);
      u == t.(lock := u.lock) && HeldFor(t.lock, cdn) == HeldFor(u.lock, cdn)
  {
  }

  lemma HeldForOnly(lock: Lock, cdn: string)
    ensures HeldFor(OnlyLock(lock, cdn), cdn) == HeldFor(lock, cdn)
  {
  }

  lemma OwnStepKeepsAgreement(g: Config, s: State, u: State, e: Event, cdn: string)
    requires Enabled(s, e) && Enabled(u, e) && Concerns(e, cdn) && Agree(s, u, cdn)
    ensures Agree(Next(g, s, e), Next(g, u, e), cdn)
  {
    OwnStep(g, s, e, cdn);
    OwnStep(g, u, e, cdn);
    HeldForOnly(s.lock, cdn);
    HeldForOnly(u.lock, cdn);
    LockIsNoInput(g, Only(s, cdn), OnlyLock(u.lock, cdn), e, cdn);
    HeldForOnly(Next(g, s, e).lock, cdn);
    HeldForOnly(Next(g, u, e).lock, cdn);
  }

  lemma {:induction false} AgreementLasts(g: Config, s: State, es: seq<Event>, u: State, other: seq<Event>, cdn: string)
    requires IsRun(g, s, es) && IsRun(g, u, other) && Agree(s, u, cdn) && OnlyEvents(es, cdn) == OnlyEvents(other, cdn)
    ensures Agree(After(g, s, es), After(g, u, other), cdn)
    decreases |es| + |other|
  {
    if es != [] && !Concerns(es[0], cdn) {
      OthersKeepAgreement(g, s, es[0], u, cdn);
      OnlyEventsStep(es, cdn);
      AgreementLasts(g, Next(g, s, es[0]), es[1..], u, other, cdn);
    } else if other != [] && !Concerns(other[0], cdn) {
      OthersKeepAgreement(g, u, other[0], s, cdn);
      OnlyEventsStep(other, cdn);
      AgreementLasts(g, s, es, Next(g, u, other[0]), other[1..], cdn);
    } else if es != [] {
      OnlyEventsStep(es, cdn);
      OnlyEventsStep(other, cdn);
      OwnStepKeepsAgreement(g, s, u, es[0], cdn);
      AgreementLasts(g, Next(g, s, es[0]), es[1..], Next(g, u, other[0]), other[1..], cdn);
    }
  }

  lemma SameOnlyCell(cells: map<string, Cell>, others: map<string, Cell>, cdn: string)
    requires OnlyCell(cells, cdn) == OnlyCell(others, cdn)
    ensures SameAt(cells, others, cdn)
  {
    assert cdn in cells <==> cdn in OnlyCell(cells, cdn);
    assert cdn in others <==> cdn in OnlyCell(others, cdn);
    if cdn in cells {
      assert OnlyCell(cells, cdn)[cdn] == cells[cdn];
    }
  }

  /** Isolation: two runs that agree on one CDN's steps agree on its buffer, its timestamps, its task,
      its enqueue under way, its submissions and its batches, whatever was done to other CDNs and
      whatever failed there. */
  lemma FloodsDoNotSpill(g: Config, t: real, es: seq<Event>, other: seq<Event>, cdn: string)
    requires IsRun(g, Init(t), es) && IsRun(g, Init(t), other)
    requires OnlyEvents(es, cdn) == OnlyEvents(other, cdn)
    ensures var s, u := After(g, Init(t), es), After(g, Init(t), other);
      && CellOf(s, cdn) == CellOf(u, cdn) && HeldFor(s.lock, cdn) == HeldFor(u.lock, cdn) && s.now == u.now
      && SubsOf(s.submitted, cdn) == SubsOf(u.submitted, cdn) && FlushesOf(s.outbox, cdn) == FlushesOf(u.outbox, cdn)
  {
    AgreementLasts(g, Init(t), es, Init(t), other, cdn);
    SameOnlyCell(After(g, Init(t), es).cells, After(g, Init(t), other).cells, cdn);
  }

  /** What isolation does not cover is when a CDN gets the lock: an enqueue for another CDN that takes
      its time carries this CDN's buffer past any deadline, and its task cannot flush. */
  lemma SlowEnqueueDelaysOthers(g: Config, slow: string, cdn: string, url: string, more: string, to: real)
    requires g.maxSize == 2 && slow != cdn && url != more && to >= 0.0
    ensures var es := [Submit(cdn, url), Submit(slow, url), Submit(slow, more), Tick(to)];
      && IsRun(g, Init(0.0), es)
      && var s := After(g, Init(0.0), es);
         && s.now == to && cdn in s.cells && s.cells[cdn].buffer == {url}
         && s.cells[cdn].first == s.cells[cdn].last == Some(0.0) && !s.lock.Free? && !Enabled(s, FlushNow(cdn))
  {
    var es := [Submit(cdn, url), Submit(slow, url), Submit(slow, more), Tick(to)];
    var s0 := Init(0.0);
    assert {} + {url} == {url} && |{url}| == 1 && {url} + {more} == {url, more} && |{url, more}| == 2;
    RunExtends(g, s0, [], es[0]);
    assert [] + [es[0]] == es[..1];
    RunExtends(g, s0, es[..1], es[1]);
    assert es[..1] + [es[1]] == es[..2];
    RunExtends(g, s0, es[..2], es[2]);
    assert es[..2] + [es[2]] == es[..3];
    RunExtends(g, s0, es[..3], es[3]);
    assert es[..3] + [es[3]] == es;
  }
}
