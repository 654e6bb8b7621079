/** What every run of the batcher keeps, whatever the tasks' interleaving: exact batch contents, no
    submission lost, no buffer stranded. */
module BatcherRuns {
  import opened Prelude
  import opened Batcher

  ghost function Urls(subs: seq<Sub>): set<string> {
    set k | 0 <= k < |subs| :: subs[k].url
  }

  lemma UrlsGrow(subs: seq<Sub>, sub: Sub)
    ensures Urls(subs + [sub]) == Urls(subs) + {sub.url}
  {
    var more := subs + [sub];
    forall u | u in Urls(subs) + {sub.url} ensures u in Urls(more) {
      if u in Urls(subs) {
        var k :| 0 <= k < |subs| && subs[k].url == u;
        assert more[k].url == u;
      } else {
        assert more[|subs|].url == u;
      }
    }
  }

  /** Submissions of one CDN, in order of time. */
  ghost predicate OneCdn(subs: seq<Sub>, cdn: string, now: real) {
    && (forall k :: 0 <= k < |subs| ==> subs[k].cdn == cdn && subs[k].at <= now)
    && (forall j, k :: 0 <= j < k < |subs| ==> subs[j].at <= subs[k].at)
  }

  function Limit(g: Config): nat {
    if g.maxSize < 1 then 1 else g.maxSize
  }

  ghost predicate CellOk(g: Config, s: State, cdn: string)
    requires cdn in s.cells
  {
    var c := s.cells[cdn];
    && OneCdn(c.since, cdn, s.now) && Urls(c.since) == c.buffer
    && (c.since == [] ==> c.buffer == {} && c.first == None && c.last == None)
    && (c.since != [] ==> c.buffer != {} && c.first == Some(c.since[0].at) && c.last == Some(c.since[|c.since| - 1].at))
    && |c.buffer| < Limit(g)
    && (c.task.Flushing? ==> s.lock.Enqueueing? && s.lock.cdn == cdn && s.lock.holder.ByTask?)
    && (s.lock.Enqueueing? && s.lock.cdn == cdn ==> c.buffer == {})
    && NotStranded(c)
  }

  /** A buffer with something in it is looked after: its task is past the outer wait or about to be
      woken, unless the task is dead. */
  predicate NotStranded(c: Cell) {
    c.buffer != {} && c.task.Outer? ==> c.wake
  }

  ghost predicate LockOk(g: Config, s: State) {
    match s.lock
    case Free => true
    case Draining(rest) => rest <= s.cells.Keys
    case Enqueueing(cdn, urls, from, holder) =>
      && cdn in s.cells && from != [] && OneCdn(from, cdn, s.now) && Urls(from) == urls && |urls| <= Limit(g)
      && (holder.ByFlushAll? ==> holder.rest <= s.cells.Keys)
  }

  /** A batch that became a job lists each URL submitted since the flush before it once, and nothing
      else; it is not empty and not above the size limit. */
  ghost predicate FlushOk(g: Config, f: Flush, now: real) {
    && f.at <= now && f.from != [] && OneCdn(f.from, f.cdn, f.at)
    && (f.Landed? ==> IsListing(f.list, Urls(f.from)) && 1 <= |f.list| <= Limit(g))
  }

  /** The submissions to one CDN. */
  function SubsOf(subs: seq<Sub>, cdn: string): seq<Sub> {
    if subs == [] then []
    else SubsOf(subs[..|subs| - 1], cdn) + if subs[|subs| - 1].cdn == cdn then [subs[|subs| - 1]] else []
  }

  /** The submissions covered by the flushes of one CDN. */
  function FlushedOf(fs: seq<Flush>, cdn: string): seq<Sub> {
    if fs == [] then []
    else FlushedOf(fs[..|fs| - 1], cdn) + if fs[|fs| - 1].cdn == cdn then fs[|fs| - 1].from else []
  }

  function InHand(lock: Lock, cdn: string): seq<Sub> {
    if lock.Enqueueing? && lock.cdn == cdn then lock.from else []
  }

  /** Every submission to the CDN is, in order, in one flush, in the enqueue under way, or in the buffer. */
  ghost predicate Conserved(s: State, cdn: string) {
    SubsOf(s.submitted, cdn) == FlushedOf(s.outbox, cdn) + InHand(s.lock, cdn) + CellOf(s, cdn).since
  }

  ghost predicate Inv(g: Config, s: State) {
    && LockOk(g, s)
    && (forall cdn {:trigger CellOk(g, s, cdn)} :: cdn in s.cells ==> CellOk(g, s, cdn))
    && (forall f {:trigger FlushOk(g, f, s.now)} :: f in s.outbox ==> FlushOk(g, f, s.now))
    && (forall cdn {:trigger Conserved(s, cdn)} :: Conserved(s, cdn))
  }

  // ---------------------------------------------------------------- one step

  lemma FlushConserves(s: State, cdn: string, holder: Holder, idle: Lock, c: string)
    requires cdn in s.cells && Conserved(s, c) && !s.lock.Enqueueing? && !idle.Enqueueing?
    requires s.cells[cdn].buffer == {} ==> s.cells[cdn].since == []
    ensures Conserved(FlushLocked(s, cdn, holder, idle), c)
  {
  }

  lemma SubmitConserves(s: State, sub: Sub, c: string)
    requires Conserved(s, c)
    ensures Conserved(Recorded(s, sub), c)
  {
  }

  lemma OutcomeConserves(s: State, t: State, f: Flush, c: string)
    requires Conserved(s, c) && s.lock.Enqueueing? && !t.lock.Enqueueing? && t.submitted == s.submitted
    requires t.outbox == s.outbox + [f] && f.cdn == s.lock.cdn && f.from == s.lock.from
    requires CellOf(t, c).since == CellOf(s, c).since
    ensures Conserved(t, c)
  {
    assert FlushedOf(t.outbox, c) == FlushedOf(s.outbox, c) + InHand(s.lock, c) by {
      assert t.outbox[..|s.outbox|] == s.outbox;
    }
    assert InHand(t.lock, c) == [];
    assert FlushedOf(t.outbox, c) + [] == FlushedOf(t.outbox, c);
  }

  lemma EnqueueConserves(g: Config, s: State, e: Event, c: string)
    requires Conserved(s, c) && Enabled(s, e) && (e.EnqueueOk? || e.EnqueueFails?)
    ensures Conserved(Next(g, s, e), c)
  {
    var f := if e.EnqueueOk? then Landed(e.cdn, e.list, s.lock.from, s.now) else Dropped(e.cdn, s.lock.from, s.now);
    OutcomeConserves(s, Next(g, s, e), f, c);
  }

  /** Steps that leave submissions, flushes and what is in hand alone. */
  lemma QuietConserves(s: State, t: State, c: string)
    requires Conserved(s, c) && t.submitted == s.submitted && t.outbox == s.outbox
    requires InHand(t.lock, c) == InHand(s.lock, c) && CellOf(t, c).since == CellOf(s, c).since
    ensures Conserved(t, c)
  {
  }

  lemma SubmitStepConserves(g: Config, s: State, cdn: string, url: string, c: string)
    requires Conserved(s, c) && s.lock.Free?
    ensures Conserved(Next(g, s, Submit(cdn, url)), c)
  {
    var r := Recorded(s, Sub(cdn, url, s.now));
    SubmitConserves(s, Sub(cdn, url, s.now), c);
    assert url in r.cells[cdn].buffer;
    FlushConserves(r, cdn, BySubmit, Free, c);
  }

  lemma FlushNowConserves(g: Config, s: State, cdn: string, c: string)
    requires Conserved(s, c) && Enabled(s, FlushNow(cdn)) && (s.cells[cdn].buffer == {} ==> s.cells[cdn].since == [])
    ensures Conserved(Next(g, s, FlushNow(cdn)), c)
  {
    var t := WithTask(s, cdn, if s.cells[cdn].buffer == {} then Outer else Flushing);
    QuietConserves(s, t, c);
    FlushConserves(t, cdn, ByTask, Free, c);
  }

  lemma ConservedStep(g: Config, s: State, e: Event, c: string)
    requires Inv(g, s) && Enabled(s, e)
    ensures Conserved(Next(g, s, e), c)
  {
    assert Conserved(s, c);
    if e.FlushNow? || e.DrainNext? {
      assert CellOk(g, s, e.cdn);
    }
    match e
    case Submit(cdn, url) => SubmitStepConserves(g, s, cdn, url, c);
    case FlushNow(cdn) => FlushNowConserves(g, s, cdn, c);
    case DrainNext(cdn) =>
      FlushConserves(s, cdn, ByFlushAll(s.lock.rest - {cdn}), Draining(s.lock.rest - {cdn}), c);
    case EnqueueOk(_, _) => EnqueueConserves(g, s, e, c);
    case EnqueueFails(_) => EnqueueConserves(g, s, e, c);
    case _ => QuietConserves(s, Next(g, s, e), c);
  }

  lemma OneCdnGrows(subs: seq<Sub>, sub: Sub, now: real)
    requires OneCdn(subs, sub.cdn, now) && sub.at == now
    ensures OneCdn(subs + [sub], sub.cdn, now)
  {
  }

  lemma AddedCell(g: Config, was: Cell, sub: Sub)
    requires OneCdn(was.since, sub.cdn, sub.at) && Urls(was.since) == was.buffer && |was.buffer| < Limit(g)
    requires was.since == [] ==> was.buffer == {}
    requires was.since != [] ==> was.buffer != {} && was.first == Some(was.since[0].at)
    ensures var c := Added(was, sub);
      && OneCdn(c.since, sub.cdn, sub.at) && Urls(c.since) == c.buffer && c.buffer != {} && |c.buffer| <= Limit(g)
      && c.since != [] && c.first == Some(c.since[0].at) && c.last == Some(sub.at)
      && c.since[|c.since| - 1].at == sub.at
  {
    UrlsGrow(was.since, sub);
    OneCdnGrows(was.since, sub, sub.at);
    assert sub.url in was.buffer + {sub.url};
    assert |was.buffer + {sub.url}| <= |was.buffer| + 1;
  }

  lemma RecordedCell(g: Config, s: State, sub: Sub)
    requires Inv(g, s) && s.lock.Free? && sub.at == s.now
    ensures var c := Recorded(s, sub).cells[sub.cdn];
      && OneCdn(c.since, sub.cdn, s.now) && Urls(c.since) == c.buffer && c.buffer != {} && |c.buffer| <= Limit(g)
      && c.since != [] && c.first == Some(c.since[0].at) && c.last == Some(s.now)
      && c.since[|c.since| - 1].at == s.now && c.wake && !c.task.Flushing?
  {
    if sub.cdn in s.cells {
      assert CellOk(g, s, sub.cdn);
    }
    AddedCell(g, CellOf(s, sub.cdn), sub);
  }

  lemma SubmittedCell(g: Config, s: State, cdn: string, url: string)
    requires Inv(g, s) && s.lock.Free?
    ensures CellOk(g, Next(g, s, Submit(cdn, url)), cdn)
  {
    RecordedCell(g, s, Sub(cdn, url, s.now));
  }

  /** A cell whose dictionaries do not change, whatever its task does short of `enqueue`. */
  lemma CellKept(g: Config, s: State, t: State, c: string)
    requires c in s.cells && c in t.cells && CellOk(g, s, c) && s.now <= t.now
    requires t.cells[c] == s.cells[c].(task := t.cells[c].task, wake := t.cells[c].wake)
    requires t.cells[c].task.Flushing? ==>
      t.lock.Enqueueing? && t.lock.cdn == c && t.lock.holder.ByTask?
    requires t.lock.Enqueueing? && t.lock.cdn == c ==> t.cells[c].buffer == {}
    requires NotStranded(t.cells[c])
    ensures CellOk(g, t, c)
  {
  }

  /** A buffer taken out leaves an empty cell. */
  lemma TakenCell(g: Config, s: State, t: State, c: string)
    requires c in s.cells && c in t.cells && CellOk(g, s, c) && t.now == s.now && t.lock.Enqueueing? && t.lock.cdn == c
    requires t.cells[c] == Cleared(s.cells[c]).(task := t.cells[c].task)
    requires t.cells[c].task.Flushing? ==> t.lock.holder.ByTask?
    ensures CellOk(g, t, c)
  {
    assert Urls([]) == {};
  }

  lemma FlushedCell(g: Config, s: State, e: Event, c: string)
    requires Inv(g, s) && Enabled(s, e) && (e.FlushNow? || e.DrainNext?) && e.cdn == c
    ensures CellOk(g, Next(g, s, e), c)
  {
    assert CellOk(g, s, c);
    if s.cells[c].buffer == {} {
      CellKept(g, s, Next(g, s, e), c);
    } else {
      TakenCell(g, s, Next(g, s, e), c);
    }
  }

  lemma CellStep(g: Config, s: State, e: Event, c: string)
    requires Inv(g, s) && Enabled(s, e) && c in Next(g, s, e).cells
    ensures CellOk(g, Next(g, s, e), c)
  {
    if e.Submit? && e.cdn == c {
      SubmittedCell(g, s, c, e.url);
    } else if (e.FlushNow? || e.DrainNext?) && e.cdn == c {
      FlushedCell(g, s, e, c);
    } else {
      OtherCell(g, s, e, c);
    }
  }

  lemma OtherCell(g: Config, s: State, e: Event, c: string)
    requires Inv(g, s) && Enabled(s, e) && c in Next(g, s, e).cells
    requires !((e.Submit? || e.FlushNow? || e.DrainNext?) && e.cdn == c)
    ensures CellOk(g, Next(g, s, e), c)
  {
    assert CellOk(g, s, c);
    CellKept(g, s, Next(g, s, e), c);
  }

  lemma LockStep(g: Config, s: State, e: Event)
    requires Inv(g, s) && Enabled(s, e)
    ensures LockOk(g, Next(g, s, e))
  {
    if e.FlushNow? || e.DrainNext? {
      assert CellOk(g, s, e.cdn);
    }
    if e.Submit? {
      RecordedCell(g, s, Sub(e.cdn, e.url, s.now));
    }
  }

  lemma FlushStep(g: Config, s: State, e: Event, f: Flush)
    requires Inv(g, s) && Enabled(s, e) && f in Next(g, s, e).outbox
    ensures FlushOk(g, f, Next(g, s, e).now)
  {
    if f in s.outbox {
      assert FlushOk(g, f, s.now);
    } else if e.EnqueueOk? {
      ListingSize(e.list, s.lock.urls);
      assert s.lock.from[0].url in Urls(s.lock.from);
    }
  }

  lemma StepKeepsInv(g: Config, s: State, e: Event)
    requires Inv(g, s) && Enabled(s, e)
    ensures Inv(g, Next(g, s, e))
  {
    var t := Next(g, s, e);
    LockStep(g, s, e);
    forall c | c in t.cells ensures CellOk(g, t, c) {
      CellStep(g, s, e, c);
    }
    forall f | f in t.outbox ensures FlushOk(g, f, t.now) {
      FlushStep(g, s, e, f);
    }
    forall c ensures Conserved(t, c) {
      ConservedStep(g, s, e, c);
    }
  }

  lemma {:induction false} RunKeepsInv(g: Config, s: State, es: seq<Event>)
    requires Inv(g, s) && IsRun(g, s, es)
    ensures Inv(g, After(g, s, es))
    decreases |es|
  {
    if es != [] {
      StepKeepsInv(g, s, es[0]);
      RunKeepsInv(g, Next(g, s, es[0]), es[1..]);
    }
  }

  lemma InitInv(g: Config, t: real)
    ensures Inv(g, Init(t))
  {
  }

  // ---------------------------------------------------------------- results

  /** Batch contents and conservation, over every run: what was submitted to a CDN is, in order and
      without gaps, what its flushes, the enqueue under way and its buffer stand for, and every job's
      list is exactly the URLs of its part. */
  lemma BatchesAreExact(g: Config, t: real, es: seq<Event>, cdn: string)
    requires IsRun(g, Init(t), es)
    ensures var s := After(g, Init(t), es);
      && SubsOf(s.submitted, cdn) == FlushedOf(s.outbox, cdn) + InHand(s.lock, cdn) + CellOf(s, cdn).since
      && Urls(CellOf(s, cdn).since) == CellOf(s, cdn).buffer
      && forall f :: f in s.outbox && f.Landed? ==>
           IsListing(f.list, Urls(f.from)) && 1 <= |f.list| <= Limit(g) && OneCdn(f.from, f.cdn, f.at)
  {
    InitInv(g, t);
    RunKeepsInv(g, Init(t), es);
    var s := After(g, Init(t), es);
    assert Conserved(s, cdn);
    if cdn in s.cells {
      assert CellOk(g, s, cdn);
    }
    forall f | f in s.outbox && f.Landed?
      ensures IsListing(f.list, Urls(f.from)) && 1 <= |f.list| <= Limit(g) && OneCdn(f.from, f.cdn, f.at)
    {
      assert FlushOk(g, f, s.now);
    }
  }

  predicate Fatal(e: Event) {
    e.EnqueueFails? || e.Cancel?
  }

  lemma {:induction false} NobodyDies(g: Config, s: State, es: seq<Event>)
    requires IsRun(g, s, es) && (forall k :: 0 <= k < |es| ==> !Fatal(es[k]))
    requires forall c :: c in s.cells ==> !s.cells[c].task.Dead?
    ensures forall c :: c in After(g, s, es).cells ==> !After(g, s, es).cells[c].task.Dead?
    decreases |es|
  {
    if es != [] {
      assert !Fatal(es[0]);
      NobodyDies(g, Next(g, s, es[0]), es[1..]);
    }
  }

  /** In every interleaving a buffer with something in it has a task past its outer wait or a set wake
      event, or its task is dead, which takes a failed enqueue or a cancellation; and the timestamps
      exist exactly while there is something in it. */
  lemma NoBufferIsStranded(g: Config, t: real, es: seq<Event>, cdn: string)
    requires IsRun(g, Init(t), es) && cdn in After(g, Init(t), es).cells
    ensures var s := After(g, Init(t), es);
      var c := s.cells[cdn];
      && (c.buffer != {} ==> !c.task.Outer? || c.wake)
      && ((forall k :: 0 <= k < |es| ==> !Fatal(es[k])) ==> !c.task.Dead?)
      && (c.buffer != {} <==> c.first.Some?) && (c.buffer != {} <==> c.last.Some?)
      && (c.buffer != {} ==> c.first.value <= c.last.value <= s.now)
      && |c.buffer| < Limit(g)
  {
    InitInv(g, t);
    RunKeepsInv(g, Init(t), es);
    assert CellOk(g, After(g, Init(t), es), cdn);
    if forall k :: 0 <= k < |es| ==> !Fatal(es[k]) {
      NobodyDies(g, Init(t), es);
    }
  }
}
