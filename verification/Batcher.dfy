/** The debounce protocol of `batcher.py`: one buffer and one debounce task per CDN, one lock.

    A step is what a task does between two points where it can be suspended.  A task suspended in
    `enqueue` holds the lock. */
module Batcher {
  import opened Prelude

  datatype Config = Config(quiet: real, maxSize: int, maxAge: real)

  /** A debounce task waits for its event; is about to look at the buffer; has found the flush due;
      sleeps until a time or its event; has run into the timeout; is inside `enqueue`; or is no more. */
  datatype Task = Outer | Inner | FlushDue | Sleeping(until: real) | TimedOut | Flushing | Dead

  datatype Sub = Sub(cdn: string, url: string, at: real)

  /** The entries of the batcher's dictionaries for one CDN.  `since` is history: the submissions since
      the buffer was last cleared. */
  datatype Cell = Cell(buffer: set<string>, first: Option<real>, last: Option<real>, wake: bool, task: Task,
                       since: seq<Sub>)

  datatype Holder = BySubmit | ByTask | ByFlushAll(rest: set<string>)

  /** Who holds the lock: nobody; somebody who waits for `enqueue`; or `flush_all` between buffers. */
  datatype Lock = Free
                | Enqueueing(cdn: string, urls: set<string>, from: seq<Sub>, holder: Holder)
                | Draining(rest: set<string>)

  /** A buffer handed to the queue: as the list that became a job, or in vain. */
  datatype Flush = Landed(cdn: string, list: seq<string>, from: seq<Sub>, at: real)
                 | Dropped(cdn: string, from: seq<Sub>, at: real)

  datatype State = State(cells: map<string, Cell>, lock: Lock, now: real, submitted: seq<Sub>, outbox: seq<Flush>)

  datatype Event =
    | Submit(cdn: string, url: string)
    | Wake(cdn: string)
    | Reassess(cdn: string)
    | Timeout(cdn: string)
    | FlushNow(cdn: string)
    | EnqueueOk(cdn: string, list: seq<string>)
    | EnqueueFails(cdn: string)
    | FlushAll
    | DrainNext(cdn: string)
    | DrainEnd
    | Cancel
    | Tick(to: real)

  const NEW_CELL := Cell({}, None, None, false, Outer, [])

  function Init(t: real): State {
    State(map[], Free, t, [], [])
  }

  function CellOf(s: State, cdn: string): Cell {
    if cdn in s.cells then s.cells[cdn] else NEW_CELL
  }

  ghost predicate Enabled(s: State, e: Event) {
    match e
    case Submit(_, _) => s.lock.Free?
    case Wake(c) => c in s.cells && s.cells[c].wake && (s.cells[c].task.Outer? || s.cells[c].task.Sleeping?)
    case Reassess(c) => c in s.cells && s.cells[c].task.Inner? && s.lock.Free?
    case Timeout(c) => c in s.cells && s.cells[c].task.Sleeping? && s.cells[c].task.until <= s.now
    case FlushNow(c) => c in s.cells && (s.cells[c].task.FlushDue? || s.cells[c].task.TimedOut?) && s.lock.Free?
    case EnqueueOk(c, list) => s.lock.Enqueueing? && s.lock.cdn == c && c in s.cells && IsListing(list, s.lock.urls)
    case EnqueueFails(c) => s.lock.Enqueueing? && s.lock.cdn == c && c in s.cells
    case FlushAll => s.lock.Free?
    case DrainNext(c) => s.lock.Draining? && c in s.lock.rest && c in s.cells
    case DrainEnd => s.lock == Draining({})
    case Cancel => true
    case Tick(to) => s.now <= to
  }

  function Min(a: real, b: real): real {
    if b < a then b else a
  }

  /** When the contents of a buffer are due. */
  function Deadline(g: Config, c: Cell): real
    requires c.first.Some? && c.last.Some?
  {
    Min(c.last.value + g.quiet, c.first.value + g.maxAge)
  }

  function Cleared(c: Cell): Cell {
    c.(buffer := {}, first := None, last := None, since := [])
  }

  /** `_flush_locked` up to its await: an empty buffer is left alone, another is cleared and the
      lock passes into the enqueue. */
  function FlushLocked(s: State, cdn: string, holder: Holder, idle: Lock): State
    requires cdn in s.cells
  {
    var c := s.cells[cdn];
    if c.buffer == {} then s.(lock := idle)
    else s.(cells := s.cells[cdn := Cleared(c)], lock := Enqueueing(cdn, c.buffer, c.since, holder))
  }

  function Added(c: Cell, sub: Sub): Cell {
    c.(buffer := c.buffer + {sub.url}, first := if c.buffer == {} then Some(sub.at) else c.first,
       last := Some(sub.at), wake := true, since := c.since + [sub])
  }

  function Recorded(s: State, sub: Sub): State {
    s.(cells := s.cells[sub.cdn := Added(CellOf(s, sub.cdn), sub)], submitted := s.submitted + [sub])
  }

  function WithTask(s: State, cdn: string, task: Task): State
    requires cdn in s.cells
  {
    s.(cells := s.cells[cdn := s.cells[cdn].(task := task)])
  }

  function Unlocked(holder: Holder): Lock {
    if holder.ByFlushAll? then Draining(holder.rest) else Free
  }

  /** What a debounce task finds at the top of its inner loop. */
  function Assessed(g: Config, c: Cell, now: real): Task {
    if c.buffer == {} || c.first.None? || c.last.None? then Outer
    else if Deadline(g, c) - now <= 0.0 then FlushDue
    else Sleeping(Deadline(g, c))
  }

  function Next(g: Config, s: State, e: Event): State
    requires Enabled(s, e)
  {
    match e
    case Submit(cdn, url) =>
      var t := Recorded(s, Sub(cdn, url, s.now));
      if |t.cells[cdn].buffer| >= g.maxSize then FlushLocked(t, cdn, BySubmit, Free) else t
    case Wake(cdn) => s.(cells := s.cells[cdn := s.cells[cdn].(task := Inner, wake := false)])
    case Reassess(cdn) => WithTask(s, cdn, Assessed(g, s.cells[cdn], s.now))
    case Timeout(cdn) => WithTask(s, cdn, TimedOut)
    case FlushNow(cdn) =>
      FlushLocked(WithTask(s, cdn, if s.cells[cdn].buffer == {} then Outer else Flushing), cdn, ByTask, Free)
    case EnqueueOk(cdn, list) =>
      var t := if s.cells[cdn].task.Flushing? then WithTask(s, cdn, Outer) else s;
      t.(lock := Unlocked(s.lock.holder), outbox := s.outbox + [Landed(cdn, list, s.lock.from, s.now)])
    case EnqueueFails(cdn) =>
      var t := if s.cells[cdn].task.Flushing? then WithTask(s, cdn, Dead) else s;
      t.(lock := Free, outbox := s.outbox + [Dropped(cdn, s.lock.from, s.now)])
    case FlushAll => s.(lock := Draining(s.cells.Keys))
    case DrainNext(cdn) =>
      FlushLocked(s, cdn, ByFlushAll(s.lock.rest - {cdn}), Draining(s.lock.rest - {cdn}))
    case DrainEnd => s.(lock := Free)
    case Cancel => s.(cells := map c | c in s.cells :: s.cells[c].(task := Dead))
    case Tick(to) => s.(now := to)
  }

  ghost predicate IsRun(g: Config, s: State, es: seq<Event>)
    decreases |es|
  {
    es == [] || (Enabled(s, es[0]) && IsRun(g, Next(g, s, es[0]), es[1..]))
  }

  ghost function After(g: Config, s: State, es: seq<Event>): State
    requires IsRun(g, s, es)
    decreases |es|
  {
    if es == [] then s else After(g, Next(g, s, es[0]), es[1..])
  }

  lemma {:induction false} RunsJoin(g: Config, s: State, es: seq<Event>, more: seq<Event>)
    requires IsRun(g, s, es + more)
    ensures IsRun(g, s, es) && IsRun(g, After(g, s, es), more)
    ensures After(g, s, es + more) == After(g, After(g, s, es), more)
    decreases |es|
  {
    if es == [] {
      assert es + more == more;
    } else {
      assert (es + more)[1..] == es[1..] + more;
      RunsJoin(g, Next(g, s, es[0]), es[1..], more);
    }
  }

  lemma {:induction false} RunExtends(g: Config, s: State, es: seq<Event>, e: Event)
    requires IsRun(g, s, es) && Enabled(After(g, s, es), e)
    ensures IsRun(g, s, es + [e]) && After(g, s, es + [e]) == Next(g, After(g, s, es), e)
    decreases |es|
  {
    if es == [] {
      assert (es + [e])[1..] == [];
    } else {
      assert (es + [e])[1..] == es[1..] + [e];
      RunExtends(g, Next(g, s, es[0]), es[1..], e);
    }
  }

  // ---------------------------------------------------------------- the class

  /** The batcher's dictionaries as values; `since` is history. */
  datatype Dicts = Dicts(buffers: map<string, set<string>>, firstAdded: map<string, real>,
                         lastAdded: map<string, real>, wakes: map<string, bool>, tasks: map<string, Task>,
                         since: map<string, seq<Sub>>)

  ghost predicate Consistent(d: Dicts) {
    forall c {:trigger ConsistentAt(d, c)} :: ConsistentAt(d, c)
  }

  ghost predicate ConsistentAt(d: Dicts, c: string) {
    && (c in d.buffers) == (c in d.wakes) == (c in d.tasks) == (c in d.since)
    && (c in d.firstAdded) == (c in d.lastAdded) == (c in d.buffers && d.buffers[c] != {})
  }

  ghost function CellsOf(d: Dicts): map<string, Cell>
    requires Consistent(d)
  {
    map c | c in d.buffers :: CellAt(d, c)
  }

  ghost function CellAt(d: Dicts, c: string): Cell
    requires Consistent(d) && c in d.buffers
  {
    assert ConsistentAt(d, c);
    Cell(d.buffers[c], if c in d.firstAdded then Some(d.firstAdded[c]) else None,
         if c in d.lastAdded then Some(d.lastAdded[c]) else None, d.wakes[c], d.tasks[c], d.since[c])
  }

  predicate SameAt<T(==)>(m: map<string, T>, n: map<string, T>, c: string) {
    (c in m <==> c in n) && (c in m ==> m[c] == n[c])
  }

  predicate SameDictsAt(d: Dicts, e: Dicts, c: string) {
    && SameAt(d.buffers, e.buffers, c) && SameAt(d.firstAdded, e.firstAdded, c) && SameAt(d.lastAdded, e.lastAdded, c)
    && SameAt(d.wakes, e.wakes, c) && SameAt(d.tasks, e.tasks, c) && SameAt(d.since, e.since, c)
  }

  /** Dictionaries that differ for one CDN only. */
  ghost predicate OnlyAt(d: Dicts, e: Dicts, cdn: string) {
    forall c {:trigger SameDictsAt(d, e, c)} :: c != cdn ==> SameDictsAt(d, e, c)
  }

  lemma OneCellChanges(d: Dicts, e: Dicts, cdn: string)
    requires Consistent(d) && OnlyAt(d, e, cdn) && ConsistentAt(e, cdn) && cdn in e.buffers
    ensures Consistent(e) && CellsOf(e) == CellsOf(d)[cdn := CellAt(e, cdn)]
  {
    forall c ensures ConsistentAt(e, c) {
      assert ConsistentAt(d, c) && (c != cdn ==> SameDictsAt(d, e, c));
    }
    forall c
      ensures c != cdn ==> (c in e.buffers <==> c in d.buffers) && (c in d.buffers ==> CellAt(e, c) == CellAt(d, c))
    {
      assert ConsistentAt(d, c) && ConsistentAt(e, c) && (c != cdn ==> SameDictsAt(d, e, c));
    }
  }

  /** The dictionaries with an entry for the CDN. */
  function WithEntry(d: Dicts, c: string): Dicts {
    if c in d.buffers then d
    else d.(buffers := d.buffers[c := {}], wakes := d.wakes[c := false], tasks := d.tasks[c := Outer],
            since := d.since[c := []])
  }

  function AddTo(d: Dicts, sub: Sub): Dicts
    requires ConsistentAt(d, sub.cdn)
  {
    var e, c := WithEntry(d, sub.cdn), sub.cdn;
    e.(buffers := e.buffers[c := e.buffers[c] + {sub.url}],
       firstAdded := if e.buffers[c] == {} then e.firstAdded[c := sub.at] else e.firstAdded,
       lastAdded := e.lastAdded[c := sub.at], wakes := e.wakes[c := true], since := e.since[c := e.since[c] + [sub]])
  }

  function ClearIn(d: Dicts, c: string): Dicts {
    d.(buffers := d.buffers[c := {}], firstAdded := d.firstAdded - {c}, lastAdded := d.lastAdded - {c},
       since := d.since[c := []])
  }

  lemma AddToCells(d: Dicts, sub: Sub)
    requires Consistent(d)
    ensures ConsistentAt(d, sub.cdn)
    ensures var e := AddTo(d, sub);
      Consistent(e) && CellsOf(e) ==
        CellsOf(d)[sub.cdn := Added(if sub.cdn in d.buffers then CellAt(d, sub.cdn) else NEW_CELL, sub)]
  {
    var e := AddTo(d, sub);
    assert ConsistentAt(d, sub.cdn);
    assert sub.url in e.buffers[sub.cdn];
    AddToOnlyAt(d, sub);
    OneCellChanges(d, e, sub.cdn);
  }

  lemma AddToOnlyAt(d: Dicts, sub: Sub)
    requires ConsistentAt(d, sub.cdn)
    ensures OnlyAt(d, AddTo(d, sub), sub.cdn)
  {
    forall c | c != sub.cdn ensures SameDictsAt(d, AddTo(d, sub), c) {
      AddToElsewhere(d, sub, c);
    }
  }

  lemma AddToElsewhere(d: Dicts, sub: Sub, c: string)
    requires ConsistentAt(d, sub.cdn) && c != sub.cdn
    ensures SameDictsAt(d, AddTo(d, sub), c)
  {
  }

  lemma ClearInCells(d: Dicts, c: string)
    requires Consistent(d) && c in d.buffers
    ensures Consistent(ClearIn(d, c)) && CellsOf(ClearIn(d, c)) == CellsOf(d)[c := Cleared(CellAt(d, c))]
  {
    assert ConsistentAt(d, c);
    assert OnlyAt(d, ClearIn(d, c), c);
    OneCellChanges(d, ClearIn(d, c), c);
  }

  /** Clearing in the dictionaries is clearing in the cells. */
  lemma FlushInDicts(d: Dicts, s: State, cdn: string, holder: Holder, idle: Lock)
    requires Consistent(d) && ConsistentAt(d, cdn) && cdn in d.buffers && d.buffers[cdn] != {} && s.cells == CellsOf(d)
    ensures Consistent(ClearIn(d, cdn))
    ensures FlushLocked(s, cdn, holder, idle) ==
      s.(cells := CellsOf(ClearIn(d, cdn)), lock := Enqueueing(cdn, d.buffers[cdn], d.since[cdn], holder))
  {
    ClearInCells(d, cdn);
  }

  /** The dictionaries in place, with the lock and the event loop's clock. */
  class Debouncer {
    const g: Config
    var buffers: map<string, set<string>>
    var firstAdded: map<string, real>
    var lastAdded: map<string, real>
    var wakes: map<string, bool>
    var tasks: map<string, Task>
    var lock: Lock
    var clock: real
    // history
    var since: map<string, seq<Sub>>
    var submitted: seq<Sub>
    var outbox: seq<Flush>

    ghost function D(): Dicts
      reads this
    {
      Dicts(buffers, firstAdded, lastAdded, wakes, tasks, since)
    }

    ghost predicate Valid()
      reads this
    {
      Consistent(D())
    }

    ghost function Contents(): State
      requires Valid()
      reads this
    {
      State(CellsOf(D()), lock, clock, submitted, outbox)
    }

    constructor (g: Config, clock: real)
      ensures Valid() && Contents() == Init(clock) && this.g == g
    {
      this.g, this.clock := g, clock;
      buffers, firstAdded, lastAdded, wakes, tasks, lock := map[], map[], map[], map[], map[], Free;
      since, submitted, outbox := map[], [], [];
    }

    /** The part of `submit` that changes the dictionaries. */
    method AddTarget(sub: Sub)
      requires ConsistentAt(D(), sub.cdn)
      modifies `buffers, `firstAdded, `lastAdded, `wakes, `tasks, `since
      ensures D() == AddTo(old(D()), sub)
    {
      var cdn := sub.cdn;
      if cdn !in buffers {
        buffers := buffers[cdn := {}];
        wakes := wakes[cdn := false];
        tasks := tasks[cdn := Outer];
        since := since[cdn := []];
      }
      if buffers[cdn] == {} {
        firstAdded := firstAdded[cdn := sub.at];
      }
      buffers := buffers[cdn := buffers[cdn] + {sub.url}];
      lastAdded := lastAdded[cdn := sub.at];
      wakes := wakes[cdn := true];
      since := since[cdn := since[cdn] + [sub]];
    }

    /** `submit` with the lock: up to its end, or to the await of the enqueue. */
    method SubmitTarget(cdn: string, url: string)
      requires Valid() && lock.Free?
      modifies this
      ensures Valid() && Contents() == Next(g, old(Contents()), Submit(cdn, url))
      // the buffer with the URL, in its place or on its way; dated and awake
      ensures var kept := if cdn in old(buffers) then old(buffers)[cdn] else {};
        && cdn in buffers && cdn in wakes && wakes[cdn]
        && if |kept + {url}| >= g.maxSize then
             && lock.Enqueueing? && lock.cdn == cdn && lock.urls == kept + {url} && lock.holder.BySubmit?
             && buffers[cdn] == {} && cdn !in firstAdded && cdn !in lastAdded
           else
             && lock.Free? && buffers[cdn] == kept + {url} && cdn in firstAdded && cdn in lastAdded
             && lastAdded[cdn] == clock && (kept == {} ==> firstAdded[cdn] == clock)
             && (kept != {} ==> cdn in old(firstAdded) && firstAdded[cdn] == old(firstAdded)[cdn])
    {
      ghost var before, d := Contents(), D();
      var sub := Sub(cdn, url, clock);
      assert ConsistentAt(d, cdn);
      AddTarget(sub);
      AddToCells(d, sub);
      submitted := submitted + [sub];
      assert Contents() == Recorded(before, sub);
      if |buffers[cdn]| >= g.maxSize {
        FlushBuffer(cdn, BySubmit, Free);
      }
    }

    /** `_flush_locked` up to the await of the enqueue. */
    method FlushBuffer(cdn: string, holder: Holder, idle: Lock)
      requires Valid() && cdn in buffers
      modifies this
      ensures Valid() && Contents() == FlushLocked(old(Contents()), cdn, holder, idle)
      ensures wakes == old(wakes) && tasks == old(tasks)
      ensures if old(buffers)[cdn] == {} then lock == idle && D() == old(D())
        else
          && lock.Enqueueing? && lock.cdn == cdn && lock.urls == old(buffers)[cdn] && lock.holder == holder
          && buffers == old(buffers)[cdn := {}]
          && firstAdded == old(firstAdded) - {cdn} && lastAdded == old(lastAdded) - {cdn}
    {
      ghost var d, s := D(), Contents();
      assert ConsistentAt(d, cdn);
      if buffers[cdn] == {} {
        lock := idle;
        return;
      }
      FlushInDicts(d, s, cdn, holder, idle);
      lock := Enqueueing(cdn, buffers[cdn], since[cdn], holder);
      buffers := buffers[cdn := {}];
      firstAdded := firstAdded - {cdn};
      lastAdded := lastAdded - {cdn};
      since := since[cdn := []];
      assert D() == ClearIn(d, cdn);
    }

    /** The debounce task comes back from waiting for its event and clears it. */
    method Awake(cdn: string)
      requires Valid() && Enabled(Contents(), Wake(cdn))
      modifies this
      ensures Valid() && Contents() == Next(g, old(Contents()), Wake(cdn))
    {
      ghost var d := D();
      assert ConsistentAt(d, cdn);
      wakes := wakes[cdn := false];
      tasks := tasks[cdn := Inner];
      OneCellChanges(d, D(), cdn);
    }

    /** The top of the inner loop: give up on an empty buffer; flush if a deadline has come, the quiet window
        after the last submission or the maximal age of the first; else sleep until the earlier. */
    method AssessBuffer(cdn: string)
      requires Valid() && Enabled(Contents(), Reassess(cdn))
      modifies this
      ensures Valid() && Contents() == Next(g, old(Contents()), Reassess(cdn))
      ensures buffers == old(buffers) && firstAdded == old(firstAdded) && lastAdded == old(lastAdded)
      ensures cdn in tasks && cdn in buffers && (buffers[cdn] == {} ==> tasks == old(tasks)[cdn := Outer])
      ensures buffers[cdn] != {} ==>
        && cdn in lastAdded && cdn in firstAdded
        && var quietAt, ageAt := lastAdded[cdn] + g.quiet, firstAdded[cdn] + g.maxAge;
           if quietAt <= clock || ageAt <= clock then tasks == old(tasks)[cdn := FlushDue]
           else
             && tasks[cdn].Sleeping? && tasks == old(tasks)[cdn := tasks[cdn]]
             && (tasks[cdn].until == quietAt <= ageAt || tasks[cdn].until == ageAt <= quietAt)
    {
      ghost var before, d := Contents(), D();
      assert ConsistentAt(d, cdn);
      if buffers[cdn] == {} {
        tasks := tasks[cdn := Outer];
      } else {
        var quietAt := lastAdded[cdn] + g.quiet;
        var ageAt := firstAdded[cdn] + g.maxAge;
        var wait := Min(quietAt, ageAt) - clock;
        tasks := tasks[cdn := if wait <= 0.0 then FlushDue else Sleeping(clock + wait)];
      }
      assert tasks[cdn] == Assessed(g, before.cells[cdn], clock);
      OneCellChanges(d, D(), cdn);
    }

    /** `wait_for` gives up. */
    method TimeOut(cdn: string)
      requires Valid() && Enabled(Contents(), Timeout(cdn))
      modifies this
      ensures Valid() && Contents() == Next(g, old(Contents()), Timeout(cdn))
    {
      ghost var d := D();
      assert ConsistentAt(d, cdn);
      tasks := tasks[cdn := TimedOut];
      OneCellChanges(d, D(), cdn);
    }

    /** The debounce task flushes, because the wait was over or has timed out. */
    method FlushByTask(cdn: string)
      requires Valid() && Enabled(Contents(), FlushNow(cdn))
      modifies this
      ensures Valid() && Contents() == Next(g, old(Contents()), FlushNow(cdn))
    {
      ghost var d := D();
      assert ConsistentAt(d, cdn);
      tasks := tasks[cdn := if buffers[cdn] == {} then Outer else Flushing];
      OneCellChanges(d, D(), cdn);
      FlushBuffer(cdn, ByTask, Free);
    }

    /** One round of the loop of `flush_all`. */
    method FlushNext(cdn: string)
      requires Valid() && Enabled(Contents(), DrainNext(cdn))
      modifies this
      ensures Valid() && Contents() == Next(g, old(Contents()), DrainNext(cdn))
    {
      FlushBuffer(cdn, ByFlushAll(lock.rest - {cdn}), Draining(lock.rest - {cdn}));
    }

    /** The enqueue is through and whoever waited for it goes on. */
    method Enqueued(cdn: string, list: seq<string>)
      requires Valid() && Enabled(Contents(), EnqueueOk(cdn, list))
      modifies this
      ensures Valid() && Contents() == Next(g, old(Contents()), EnqueueOk(cdn, list))
    {
      ghost var d := D();
      assert ConsistentAt(d, cdn);
      outbox := outbox + [Landed(cdn, list, lock.from, clock)];
      lock := Unlocked(lock.holder);
      if tasks[cdn].Flushing? {
        tasks := tasks[cdn := Outer];
        OneCellChanges(d, D(), cdn);
      }
    }

    method BeginFlushAll()
      requires Valid() && lock.Free?
      modifies this
      ensures Valid() && Contents() == Next(g, old(Contents()), FlushAll)
    {
      lock := Draining(buffers.Keys);
      assert CellsOf(D()).Keys == buffers.Keys;
    }

    method EndFlushAll()
      requires Valid() && lock == Draining({})
      modifies this
      ensures Valid() && Contents() == Next(g, old(Contents()), DrainEnd)
    {
      lock := Free;
    }

    /** The enqueue raises: the batch is gone, the lock is free, and a debounce task that waited for
        it has ended with the exception. */
    method EnqueueRaised(cdn: string)
      requires Valid() && Enabled(Contents(), EnqueueFails(cdn))
      modifies this
      ensures Valid() && Contents() == Next(g, old(Contents()), EnqueueFails(cdn))
    {
      ghost var d := D();
      assert ConsistentAt(d, cdn);
      outbox := outbox + [Dropped(cdn, lock.from, clock)];
      lock := Free;
      if tasks[cdn].Flushing? {
        tasks := tasks[cdn := Dead];
        OneCellChanges(d, D(), cdn);
      }
    }
  }
}
