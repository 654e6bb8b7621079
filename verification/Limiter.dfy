/** `_SlidingWindowLimiter` of `providers/gcp.py`: at most `capacity` admissions in any window. */
module Limiter {
  datatype Outcome = Admitted | MustWait(seconds: real) | EmptyDeque

  function Max(a: real, b: real): real {
    if a < b then b else a
  }

  function DropAged(calls: seq<real>, cutoff: real): seq<real> {
    if calls != [] && calls[0] <= cutoff then DropAged(calls[1..], cutoff) else calls
  }

  /** The calls a caller at time t still finds in the window. */
  function Kept(calls: seq<real>, window: real, t: real): seq<real> {
    DropAged(calls, t - window)
  }

  /** One pass through the locked section: the deque afterwards, and what the caller does next.
      Reading the oldest call of an empty deque is an error. */
  function Attempt(calls: seq<real>, capacity: int, window: real, now: real): (seq<real>, Outcome) {
    var kept := DropAged(calls, now - window);
    if |kept| < capacity then (kept + [now], Admitted)
    else if kept == [] then (kept, EmptyDeque)
    else (kept, MustWait(Max(0.0, kept[0] + window - now)))
  }

  /** The first n calls have aged out, and no more than these from the left; with room among the others
      the caller is admitted now, else it waits until the oldest of them ages out. */
  predicate Tried(was: seq<real>, n: nat, capacity: int, window: real, now: real, calls: seq<real>, o: Outcome) {
    && n <= |was| && (forall i :: 0 <= i < n ==> was[i] <= now - window) && (n < |was| ==> was[n] > now - window)
    && calls == was[n..] + (if o == Admitted then [now] else [])
    && (o == Admitted <==> |was| - n < capacity)
    && (o.MustWait? <==> |was| - n >= capacity && calls != [])
    && (o.MustWait? ==> o.seconds == calls[0] + window - now)
  }

  class SlidingWindowLimiter {
    const capacity: int
    const window: real
    var calls: seq<real>

    constructor (capacity: int, window: real)
      ensures this.capacity == capacity && this.window == window && calls == []
    {
      this.capacity := capacity;
      this.window := window;
      calls := [];
    }

    method TryAcquire(now: real) returns (o: Outcome)
      modifies this
      ensures (calls, o) == Attempt(old(calls), capacity, window, now)
      ensures exists n: nat :: Tried(old(calls), n, capacity, window, now, calls, o)
    {
      ghost var n := 0;
      var cutoff := now - window;
      while calls != [] && calls[0] <= cutoff
        invariant DropAged(calls, cutoff) == DropAged(old(calls), cutoff)
        invariant n <= |old(calls)| && calls == old(calls)[n..] && forall i :: 0 <= i < n ==> old(calls)[i] <= cutoff
        decreases |calls|
      {
        calls := calls[1..];
        n := n + 1;
      }
      if |calls| < capacity {
        calls := calls + [now];
        assert Tried(old(calls), n, capacity, window, now, calls, Admitted);
        return Admitted;
      }
      o := if calls == [] then EmptyDeque else MustWait(Max(0.0, calls[0] + window - now));
      assert Tried(old(calls), n, capacity, window, now, calls, o);
    }

    /** The whole of `acquire` for a caller with no competitor and a punctual sleep.  It admits at
        the first moment at which fewer than `capacity` of the recorded calls are in the window. */
    method Acquire(start: real) returns (at: real)
      requires capacity >= 1 && Ascending(calls) && |calls| <= capacity
      modifies this
      ensures start <= at && |Kept(old(calls), window, at)| < capacity
      ensures forall t :: start <= t < at ==> |Kept(old(calls), window, t)| >= capacity
      ensures calls == Kept(old(calls), window, at) + [at]
    {
      at := start;
      ghost var before := calls;
      while true
        invariant start <= at && Ascending(calls) && |calls| <= capacity
        invariant calls == if at == start then before else Kept(before, window, start)
        invariant Kept(calls, window, at) == Kept(before, window, at)
        invariant forall t :: start <= t < at ==> |Kept(before, window, t)| >= capacity
        invariant at == start || |Kept(calls, window, at)| < capacity
        decreases if at == start then 1 else 0
      {
        ghost var was := calls;
        var o := TryAcquire(at);
        DropAgedPrunes(was, at - window);
        match o {
          case Admitted => return;
          case EmptyDeque => assert false;
          case MustWait(seconds) =>
            WaitIsExact(was, capacity, window, at, at + seconds);
            forall t | at <= t <= at + seconds ensures Kept(before, window, t) == Kept(calls, window, t) {
              PrunedDropsTheSame(before, calls, at - window, t - window);
            }
            at := at + seconds;
        }
      }
    }
  }

  /** A refused caller is told to sleep until the oldest call leaves the window: no sooner is there
      room, and then there is. */
  lemma WaitIsExact(calls: seq<real>, cap: nat, win: real, at: real, till: real)
    requires cap >= 1 && |calls| <= cap
    requires Attempt(calls, cap, win, at).1 == MustWait(till - at)
    ensures at < till && Kept(calls, win, at) == calls
    ensures forall t :: at <= t < till ==> |Kept(calls, win, t)| >= cap
    ensures |Kept(calls, win, till)| < cap
  {
    if calls != [] {
      DropAgedShrinks(calls[1..], at - win);
      DropAgedShrinks(calls[1..], till - win);
    }
  }

  ghost predicate Ascending(h: seq<real>) {
    forall i, j :: 0 <= i < j < |h| ==> h[i] <= h[j]
  }

  /** `calls` is what is left of `h` after removing, from the left, only elements up to the cutoff. */
  ghost predicate Pruned(h: seq<real>, calls: seq<real>, cutoff: real) {
    && |calls| <= |h| && (forall i {:trigger SuffixAt(h, calls, i)} :: 0 <= i < |calls| ==> SuffixAt(h, calls, i))
    && forall i :: 0 <= i < |h| - |calls| ==> h[i] <= cutoff
  }

  ghost predicate SuffixAt(h: seq<real>, calls: seq<real>, i: nat)
    requires i < |calls| <= |h|
  {
    calls[i] == h[|h| - |calls| + i]
  }

  lemma PrunedByOne(h: seq<real>, calls: seq<real>, cutoff: real)
    requires h != [] && h[0] <= cutoff && Pruned(h[1..], calls, cutoff)
    ensures Pruned(h, calls, cutoff)
  {
    var rest := h[1..];
    forall i | 0 <= i < |calls| ensures SuffixAt(h, calls, i) {
      assert SuffixAt(rest, calls, i);
    }
    forall i | 0 <= i < |h| - |calls| ensures h[i] <= cutoff {
      assert i > 0 ==> h[i] == rest[i - 1];
    }
  }

  ghost predicate AllAfter(calls: seq<real>, cutoff: real) {
    forall i :: 0 <= i < |calls| ==> calls[i] > cutoff
  }

  lemma {:induction false} DropAgedPrunes(h: seq<real>, cutoff: real)
    requires Ascending(h)
    ensures Pruned(h, DropAged(h, cutoff), cutoff)
    ensures Ascending(DropAged(h, cutoff)) && AllAfter(DropAged(h, cutoff), cutoff)
  {
    if h != [] && h[0] <= cutoff {
      AscendingTail(h);
      DropAgedPrunes(h[1..], cutoff);
      PrunedByOne(h, DropAged(h[1..], cutoff), cutoff);
    }
  }

  lemma AscendingTail(h: seq<real>)
    requires h != [] && Ascending(h)
    ensures Ascending(h[1..])
  {
  }

  lemma {:induction false} PrunedDropsTheSame(h: seq<real>, calls: seq<real>, past: real, cutoff: real)
    requires Pruned(h, calls, past) && past <= cutoff
    ensures DropAged(h, cutoff) == DropAged(calls, cutoff)
    decreases |h|
  {
    if |calls| < |h| {
      forall i | 0 <= i < |calls| ensures SuffixAt(h[1..], calls, i) {
        assert SuffixAt(h, calls, i);
      }
      PrunedDropsTheSame(h[1..], calls, past, cutoff);
    } else {
      forall i | 0 <= i < |h| ensures calls[i] == h[i] {
        assert SuffixAt(h, calls, i);
      }
      assert calls == h;
    }
  }

  lemma PrunedAppend(h: seq<real>, calls: seq<real>, cutoff: real, x: real)
    requires Pruned(h, calls, cutoff)
    ensures Pruned(h + [x], calls + [x], cutoff)
  {
    forall i | 0 <= i < |calls| + 1 ensures SuffixAt(h + [x], calls + [x], i) {
      assert i < |calls| ==> SuffixAt(h, calls, i);
    }
  }

  // ---------------------------------------------------------------- many callers

  /** Callers share the deque.  `waiting` holds the time each sleeping caller wakes up; `arrivals`
      and `admissions` are the whole history. */
  datatype State = State(calls: seq<real>, now: real, waiting: seq<real>, arrivals: seq<real>, admissions: seq<real>)

  /** A new caller attempts, caller i wakes and attempts again, or time passes. */
  datatype Event = Arrive | Wake(i: nat) | Tick(to: real)

  function Init(t: real): State {
    State([], t, [], [], [])
  }

  /** A caller may oversleep; in a punctual run nobody does. */
  predicate Enabled(punctual: bool, s: State, e: Event) {
    match e
    case Arrive => true
    case Wake(i) => i < |s.waiting| && s.waiting[i] <= s.now
    case Tick(to) => s.now <= to && (punctual ==> forall i :: 0 <= i < |s.waiting| ==> to <= s.waiting[i])
  }

  function Try(cap: int, win: real, s: State): State {
    var (calls, o) := Attempt(s.calls, cap, win, s.now);
    match o
    case Admitted => s.(calls := calls, admissions := s.admissions + [s.now])
    case MustWait(seconds) => s.(calls := calls, waiting := s.waiting + [s.now + seconds])
    case EmptyDeque => s.(calls := calls)
  }

  function Next(cap: int, win: real, s: State, e: Event): State
    requires Enabled(false, s, e)
  {
    match e
    case Arrive => Try(cap, win, s.(arrivals := s.arrivals + [s.now]))
    case Wake(i) => Try(cap, win, s.(waiting := s.waiting[..i] + s.waiting[i + 1..]))
    case Tick(to) => s.(now := to)
  }

  ghost predicate IsRun(cap: int, win: real, punctual: bool, s: State, es: seq<Event>)
    decreases |es|
  {
    es == [] || (Enabled(punctual, s, es[0]) && IsRun(cap, win, punctual, Next(cap, win, s, es[0]), es[1..]))
  }

  ghost function After(cap: int, win: real, punctual: bool, s: State, es: seq<Event>): State
    requires IsRun(cap, win, punctual, s, es)
    decreases |es|
  {
    if es == [] then s else After(cap, win, punctual, Next(cap, win, s, es[0]), es[1..])
  }

  /** Admissions `cap` apart in the history are at least a window apart in time. */
  ghost predicate Spaced(cap: nat, win: real, h: seq<real>) {
    forall j :: cap <= j < |h| ==> SpacedAt(cap, win, h, j)
  }

  ghost predicate SpacedAt(cap: nat, win: real, h: seq<real>, j: nat)
    requires cap <= j < |h|
  {
    h[j - cap] + win <= h[j]
  }

  ghost predicate Inv(cap: nat, win: real, s: State) {
    && Ascending(s.admissions) && (forall i :: 0 <= i < |s.admissions| ==> s.admissions[i] <= s.now)
    && Pruned(s.admissions, s.calls, s.now - win) && |s.calls| <= cap
    && Spaced(cap, win, s.admissions)
  }

  /** Time of the k-th admission, given the admissions before it. */
  function Due(cap: nat, win: real, arrivals: seq<real>, h: seq<real>, k: nat): real
    requires k < |arrivals| && k <= |h| && cap >= 1
  {
    if k < cap then arrivals[k] else Max(arrivals[k], h[k - cap] + win)
  }

  /** Further invariant of punctual runs: somebody waits only while the window is full, nobody's
      alarm is set later than the oldest call of the window expires, and every admission came
      exactly when it was due. */
  ghost predicate PunctualInv(cap: nat, win: real, s: State)
    requires cap >= 1
  {
    && |s.arrivals| == |s.admissions| + |s.waiting|
    && Ascending(s.arrivals) && (forall i :: 0 <= i < |s.arrivals| ==> s.arrivals[i] <= s.now)
    && (s.waiting != [] ==>
          && |s.admissions| >= cap
          && s.now <= s.admissions[|s.admissions| - cap] + win
          && AlarmsBy(s.waiting, s.admissions[|s.admissions| - cap] + win))
    && OnSchedule(cap, win, s.arrivals, s.admissions)
  }

  ghost predicate AlarmsBy(waiting: seq<real>, limit: real) {
    forall i :: 0 <= i < |waiting| ==> waiting[i] <= limit
  }

  ghost predicate OnSchedule(cap: nat, win: real, arrivals: seq<real>, h: seq<real>)
    requires cap >= 1
  {
    |h| <= |arrivals| && forall k :: 0 <= k < |h| ==> OnTime(cap, win, arrivals, h, k)
  }

  ghost predicate OnTime(cap: nat, win: real, arrivals: seq<real>, h: seq<real>, k: nat)
    requires cap >= 1 && k < |h| <= |arrivals|
  {
    h[k] == Due(cap, win, arrivals, h, k)
  }

  lemma KeptIsSuffix(cap: nat, win: real, s: State)
    requires cap >= 1 && win >= 0.0 && Inv(cap, win, s)
    ensures var kept := Kept(s.admissions, win, s.now);
      && kept == Kept(s.calls, win, s.now)
      && Pruned(s.admissions, kept, s.now - win) && |kept| <= cap
      && (kept != [] ==> kept[0] > s.now - win)
  {
    PrunedDropsTheSame(s.admissions, s.calls, s.now - win, s.now - win);
    DropAgedPrunes(s.admissions, s.now - win);
    DropAgedShrinks(s.calls, s.now - win);
  }

  lemma AttemptByHistory(cap: nat, win: real, s: State)
    requires cap >= 1 && win >= 0.0 && Inv(cap, win, s)
    ensures var kept := Kept(s.admissions, win, s.now);
      Attempt(s.calls, cap, win, s.now) ==
        if |kept| < cap then (kept + [s.now], Admitted) else (kept, MustWait(kept[0] + win - s.now))
  {
    KeptIsSuffix(cap, win, s);
  }

  lemma {:induction false} DropAgedShrinks(calls: seq<real>, cutoff: real)
    ensures |DropAged(calls, cutoff)| <= |calls|
  {
    if calls != [] && calls[0] <= cutoff {
      DropAgedShrinks(calls[1..], cutoff);
    }
  }

  lemma SpacedGrows(cap: nat, win: real, h: seq<real>, x: real)
    requires Spaced(cap, win, h) && (|h| >= cap > 0 ==> h[|h| - cap] + win <= x)
    ensures cap > 0 ==> Spaced(cap, win, h + [x])
  {
    var longer := h + [x];
    if cap > 0 {
      forall j | cap <= j < |longer| ensures SpacedAt(cap, win, longer, j) {
        if j < |h| {
          assert SpacedAt(cap, win, h, j);
        }
      }
    }
  }

  lemma TryKeepsInv(cap: nat, win: real, s: State)
    requires cap >= 1 && win >= 0.0 && Inv(cap, win, s)
    ensures Inv(cap, win, Try(cap, win, s))
  {
    KeptIsSuffix(cap, win, s);
    AttemptByHistory(cap, win, s);
    var h, kept := s.admissions, Kept(s.admissions, win, s.now);
    if |kept| < cap {
      PrunedAppend(h, kept, s.now - win, s.now);
      SpacedGrows(cap, win, h, s.now);
    }
  }

  lemma StepKeepsInv(cap: nat, win: real, s: State, e: Event)
    requires cap >= 1 && win >= 0.0 && Inv(cap, win, s) && Enabled(false, s, e)
    ensures Inv(cap, win, Next(cap, win, s, e))
  {
    match e
    case Arrive => TryKeepsInv(cap, win, s.(arrivals := s.arrivals + [s.now]));
    case Wake(i) => TryKeepsInv(cap, win, s.(waiting := s.waiting[..i] + s.waiting[i + 1..]));
    case Tick(to) =>
  }

  /** t is s with one more arrival, or with one sleeper awake. */
  ghost predicate AboutToTry(s: State, t: State) {
    || t == s.(arrivals := s.arrivals + [s.now])
    || exists i :: 0 <= i < |s.waiting| && t == s.(waiting := s.waiting[..i] + s.waiting[i + 1..])
  }

  lemma OnScheduleGrows(cap: nat, win: real, arrivals: seq<real>, h: seq<real>, more: seq<real>, longer: seq<real>)
    requires cap >= 1 && OnSchedule(cap, win, arrivals, h)
    requires arrivals <= more && h <= longer && |h| <= |longer| <= |h| + 1 && |longer| <= |more|
    requires |longer| == |h| + 1 ==> OnTime(cap, win, more, longer, |h|)
    ensures OnSchedule(cap, win, more, longer)
  {
    forall k | 0 <= k < |h| ensures OnTime(cap, win, more, longer, k) {
      assert OnTime(cap, win, arrivals, h, k);
    }
  }

  /** An admission comes when it is due: not before the window has room, and the moment it has. */
  lemma AdmissionIsOnTime(cap: nat, win: real, s: State, t: State)
    requires cap >= 1 && win >= 0.0 && Inv(cap, win, s) && PunctualInv(cap, win, s) && AboutToTry(s, t)
    requires |Kept(s.admissions, win, s.now)| < cap
    ensures |s.admissions| < |t.arrivals|
    ensures OnTime(cap, win, t.arrivals, s.admissions + [s.now], |s.admissions|)
  {
    KeptIsSuffix(cap, win, s);
    var m := |s.admissions|;
    assert m >= cap ==> s.admissions[m - cap] <= s.now - win;
    assert s.waiting == [] ==> t.arrivals == s.arrivals + [s.now];
  }

  /** The oldest of a full window. */
  lemma OldestKept(cap: nat, win: real, s: State)
    requires cap >= 1 && win >= 0.0 && Inv(cap, win, s) && |Kept(s.admissions, win, s.now)| >= cap
    ensures |s.admissions| >= cap
    ensures Kept(s.admissions, win, s.now)[0] == s.admissions[|s.admissions| - cap] > s.now - win
  {
    KeptIsSuffix(cap, win, s);
    var h, kept := s.admissions, Kept(s.admissions, win, s.now);
    assert SuffixAt(h, kept, 0);
  }

  lemma RefusalKeepsPunctualInv(cap: nat, win: real, s: State, t: State)
    requires cap >= 1 && win >= 0.0 && Inv(cap, win, s) && PunctualInv(cap, win, s) && AboutToTry(s, t)
    requires |Kept(s.admissions, win, s.now)| >= cap
    ensures PunctualInv(cap, win, Try(cap, win, t))
  {
    AttemptByHistory(cap, win, t);
    OldestKept(cap, win, s);
    AlarmsAfterTry(cap, win, s, t);
    OnScheduleGrows(cap, win, s.arrivals, s.admissions, t.arrivals, s.admissions);
  }

  /** Whoever still sleeps while another tries has an alarm that fits the window. */
  lemma AlarmsAfterTry(cap: nat, win: real, s: State, t: State)
    requires cap >= 1 && PunctualInv(cap, win, s) && AboutToTry(s, t)
    ensures t.waiting != [] ==> |s.admissions| >= cap && AlarmsBy(t.waiting, s.admissions[|s.admissions| - cap] + win)
  {
  }

  lemma AdmissionKeepsPunctualInv(cap: nat, win: real, s: State, t: State)
    requires cap >= 1 && win >= 0.0 && Inv(cap, win, s) && PunctualInv(cap, win, s) && AboutToTry(s, t)
    requires |Kept(s.admissions, win, s.now)| < cap
    ensures PunctualInv(cap, win, Try(cap, win, t))
  {
    AttemptByHistory(cap, win, t);
    AdmissionIsOnTime(cap, win, s, t);
    AlarmsAfterTry(cap, win, s, t);
    var longer, m := s.admissions + [s.now], |s.admissions|;
    OnScheduleGrows(cap, win, s.arrivals, s.admissions, t.arrivals, longer);
    if t.waiting != [] {
      assert longer[m + 1 - cap] >= s.admissions[m - cap];
      assert AlarmsBy(t.waiting, longer[m + 1 - cap] + win);
    }
  }

  lemma TryKeepsPunctualInv(cap: nat, win: real, s: State, t: State)
    requires cap >= 1 && win >= 0.0 && Inv(cap, win, s) && PunctualInv(cap, win, s) && AboutToTry(s, t)
    ensures PunctualInv(cap, win, Try(cap, win, t))
  {
    if |Kept(s.admissions, win, s.now)| < cap {
      AdmissionKeepsPunctualInv(cap, win, s, t);
    } else {
      RefusalKeepsPunctualInv(cap, win, s, t);
    }
  }

  lemma StepKeepsPunctualInv(cap: nat, win: real, s: State, e: Event)
    requires cap >= 1 && win >= 0.0 && Inv(cap, win, s) && PunctualInv(cap, win, s) && Enabled(true, s, e)
    ensures PunctualInv(cap, win, Next(cap, win, s, e))
  {
    match e
    case Arrive => TryKeepsPunctualInv(cap, win, s, s.(arrivals := s.arrivals + [s.now]));
    case Wake(i) => TryKeepsPunctualInv(cap, win, s, s.(waiting := s.waiting[..i] + s.waiting[i + 1..]));
    case Tick(to) =>
      if s.waiting != [] {
        assert to <= s.waiting[0];
      }
  }

  lemma {:induction false} RunKeepsInv(cap: nat, win: real, punctual: bool, s: State, es: seq<Event>)
    requires cap >= 1 && win >= 0.0 && IsRun(cap, win, punctual, s, es)
    requires Inv(cap, win, s) && (punctual ==> PunctualInv(cap, win, s))
    ensures var t := After(cap, win, punctual, s, es);
      Inv(cap, win, t) && (punctual ==> PunctualInv(cap, win, t))
    decreases |es|
  {
    if es != [] {
      StepKeepsInv(cap, win, s, es[0]);
      if punctual {
        StepKeepsPunctualInv(cap, win, s, es[0]);
      }
      RunKeepsInv(cap, win, punctual, Next(cap, win, s, es[0]), es[1..]);
    }
  }

  // ---------------------------------------------------------------- the quota

  /** How many elements of h lie in the half-open interval (lo, hi]. */
  function Occupancy(h: seq<real>, lo: real, hi: real): nat {
    if h == [] then 0
    else Occupancy(h[..|h| - 1], lo, hi) + if lo < h[|h| - 1] <= hi then 1 else 0
  }

  lemma {:induction false} OccupancyIsSuffix(h: seq<real>, lo: real, hi: real)
    requires Ascending(h) && forall i :: 0 <= i < |h| ==> h[i] <= hi
    ensures Occupancy(h, lo, hi) == |DropAged(h, lo)|
  {
    if h != [] {
      var front, last := h[..|h| - 1], h[|h| - 1];
      OccupancyIsSuffix(front, lo, hi);
      assert h == front + [last];
      if last <= lo {
        AllAged(h, lo);
        AllAged(front, lo);
      } else {
        DropAgedAppend(front, last, lo);
      }
    }
  }

  lemma {:induction false} AllAged(h: seq<real>, lo: real)
    requires forall i :: 0 <= i < |h| ==> h[i] <= lo
    ensures DropAged(h, lo) == []
  {
    if h != [] {
      AllAged(h[1..], lo);
    }
  }

  lemma {:induction false} DropAgedAppend(h: seq<real>, x: real, lo: real)
    requires x > lo
    ensures DropAged(h + [x], lo) == DropAged(h, lo) + [x]
  {
    if h != [] && h[0] <= lo {
      assert (h + [x])[1..] == h[1..] + [x];
      DropAgedAppend(h[1..], x, lo);
    }
  }

  /** A schedule respects the quota: no half-open interval as long as the window holds more than
      `cap` of it. */
  ghost predicate RespectsQuota(cap: nat, win: real, h: seq<real>) {
    forall x :: WindowLoad(h, win, x) <= cap
  }

  function WindowLoad(h: seq<real>, win: real, x: real): nat {
    Occupancy(h, x - win, x)
  }

  /** What is kept lies in the window. */
  lemma KeptIsRecent(h: seq<real>, cutoff: real, j: nat)
    requires Ascending(h) && j < |DropAged(h, cutoff)|
    ensures j < |h| && h[|h| - 1 - j] > cutoff
  {
    DropAgedPrunes(h, cutoff);
    var kept := DropAged(h, cutoff);
    assert SuffixAt(h, kept, |kept| - 1 - j) && kept[|kept| - 1 - j] > cutoff;
  }

  lemma RecentIsKept(h: seq<real>, cutoff: real, j: nat)
    requires Ascending(h) && j < |h| && h[|h| - 1 - j] > cutoff
    ensures j < |DropAged(h, cutoff)|
  {
    DropAgedPrunes(h, cutoff);
  }

  lemma LastWindowWithinQuota(cap: nat, win: real, h: seq<real>, x: real)
    requires Ascending(h) && Spaced(cap, win, h) && h != [] && h[|h| - 1] <= x
    ensures |DropAged(h, x - win)| <= cap
  {
    if |DropAged(h, x - win)| > cap {
      KeptIsRecent(h, x - win, cap);
      var apart := SpacedAt(cap, win, h, |h| - 1);
    }
  }

  lemma {:induction false} SpacedIsWithinQuota(cap: nat, win: real, h: seq<real>, x: real)
    requires Ascending(h) && Spaced(cap, win, h)
    ensures WindowLoad(h, win, x) <= cap
  {
    if h != [] {
      var n := |h| - 1;
      if h[n] > x {
        var front := h[..n];
        forall j | cap <= j < n ensures SpacedAt(cap, win, front, j) {
          assert SpacedAt(cap, win, h, j);
        }
        SpacedIsWithinQuota(cap, win, front, x);
      } else {
        LastWindowWithinQuota(cap, win, h, x);
        OccupancyIsSuffix(h, x - win, x);
      }
    }
  }

  lemma {:induction false} OccupancyMonotone(h: seq<real>, n: nat, lo: real, hi: real)
    requires n <= |h|
    ensures Occupancy(h[..n], lo, hi) <= Occupancy(h, lo, hi)
  {
    if n < |h| {
      OccupancyMonotone(h[..|h| - 1], n, lo, hi);
      assert h[..|h| - 1][..n] == h[..n];
    } else {
      assert h[..n] == h;
    }
  }

  lemma CrowdedWindow(cap: nat, win: real, h: seq<real>, j: nat)
    requires Ascending(h) && cap <= j < |h| && !SpacedAt(cap, win, h, j)
    ensures WindowLoad(h, win, h[j]) > cap
  {
    var front, x := h[..j + 1], h[j];
    OccupancyMonotone(h, j + 1, x - win, x);
    OccupancyIsSuffix(front, x - win, x);
    RecentIsKept(front, x - win, cap);
  }

  lemma QuotaIffSpaced(cap: nat, win: real, h: seq<real>)
    requires Ascending(h)
    ensures RespectsQuota(cap, win, h) <==> Spaced(cap, win, h)
  {
    if Spaced(cap, win, h) {
      forall x ensures WindowLoad(h, win, x) <= cap {
        SpacedIsWithinQuota(cap, win, h, x);
      }
    }
    if j :| cap <= j < |h| && !SpacedAt(cap, win, h, j) {
      CrowdedWindow(cap, win, h, j);
    }
  }

  /** Safety, over every run, punctual or not: the deque is the history without calls that have
      aged out, a caller is admitted exactly when the whole history has fewer than `cap` calls in
      the last window, and no window anywhere in the run holds more than `cap`. */
  lemma LimiterIsSafe(cap: nat, win: real, t0: real, es: seq<Event>)
    requires cap >= 1 && win >= 0.0 && IsRun(cap, win, false, Init(t0), es)
    ensures var s := After(cap, win, false, Init(t0), es);
      && |s.calls| <= cap && Pruned(s.admissions, s.calls, s.now - win)
      && (Attempt(s.calls, cap, win, s.now).1 == Admitted <==> WindowLoad(s.admissions, win, s.now) < cap)
      && Attempt(s.calls, cap, win, s.now).1 != EmptyDeque
      && RespectsQuota(cap, win, s.admissions)
  {
    RunKeepsInv(cap, win, false, Init(t0), es);
    var s := After(cap, win, false, Init(t0), es);
    AttemptByHistory(cap, win, s);
    OccupancyIsSuffix(s.admissions, s.now - win, s.now);
    QuotaIffSpaced(cap, win, s.admissions);
  }

  /** With a capacity below one the first caller to find the window empty gets the error, so the
      limiter works for exactly the capacities from one. */
  lemma WorksExactlyFromCapacityOne(cap: int, win: real)
    requires win >= 0.0
    ensures (forall t0: real, es :: IsRun(cap, win, false, Init(t0), es) ==>
              var s := After(cap, win, false, Init(t0), es);
              Attempt(s.calls, cap, win, s.now).1 != EmptyDeque) <==> cap >= 1
  {
    if cap >= 1 {
      forall t0: real, es | IsRun(cap, win, false, Init(t0), es)
        ensures var s := After(cap, win, false, Init(t0), es); Attempt(s.calls, cap, win, s.now).1 != EmptyDeque
      {
        LimiterIsSafe(cap, win, t0, es);
      }
    } else {
      assert IsRun(cap, win, false, Init(0.0), []);
      assert After(cap, win, false, Init(0.0), []) == Init(0.0);
    }
  }

  // ---------------------------------------------------------------- the schedule

  /** The k-th admission as a function of the arrivals alone. */
  function Schedule(cap: nat, win: real, arrivals: seq<real>, k: nat): real
    requires cap >= 1 && k < |arrivals|
  {
    if k < cap then arrivals[k] else Max(arrivals[k], Schedule(cap, win, arrivals, k - cap) + win)
  }

  lemma {:induction false} AdmissionsFollowSchedule(cap: nat, win: real, arrivals: seq<real>, h: seq<real>, k: nat)
    requires cap >= 1 && k < |h| && OnSchedule(cap, win, arrivals, h)
    ensures h[k] == Schedule(cap, win, arrivals, k)
  {
    assert OnTime(cap, win, arrivals, h, k);
    if k >= cap {
      AdmissionsFollowSchedule(cap, win, arrivals, h, k - cap);
    }
  }

  lemma {:induction false} ScheduleIsEarliest(cap: nat, win: real, arrivals: seq<real>, other: seq<real>, k: nat)
    requires cap >= 1 && k < |other| <= |arrivals| && Spaced(cap, win, other)
    requires forall i :: 0 <= i < |other| ==> arrivals[i] <= other[i]
    ensures Schedule(cap, win, arrivals, k) <= other[k]
  {
    if k >= cap {
      ScheduleIsEarliest(cap, win, arrivals, other, k - cap);
      assert SpacedAt(cap, win, other, k);
    }
  }

  /** Nobody past the admissions so far is scheduled before the oldest of them leaves the window. */
  lemma {:induction false} LaterIsScheduledLater(cap: nat, win: real, arrivals: seq<real>, h: seq<real>, k: nat)
    requires cap >= 1 && win >= 0.0 && cap <= |h| <= k < |arrivals| && OnSchedule(cap, win, arrivals, h) && Ascending(h)
    ensures Schedule(cap, win, arrivals, k) >= h[|h| - cap] + win
    decreases k
  {
    if k - cap < |h| {
      AdmissionsFollowSchedule(cap, win, arrivals, h, k - cap);
    } else {
      LaterIsScheduledLater(cap, win, arrivals, h, k - cap);
    }
  }

  /** In a punctual run every caller is admitted, and exactly at the scheduled moment: whoever's moment
      is past has been admitted. */
  lemma EverybodyIsAdmittedOnSchedule(cap: nat, win: real, t0: real, es: seq<Event>, k: nat)
    requires cap >= 1 && win >= 0.0 && IsRun(cap, win, true, Init(t0), es)
    requires k < |After(cap, win, true, Init(t0), es).arrivals|
    ensures var s := After(cap, win, true, Init(t0), es);
      && (Schedule(cap, win, s.arrivals, k) < s.now ==> k < |s.admissions|)
      && (k < |s.admissions| ==> s.admissions[k] == Schedule(cap, win, s.arrivals, k))
  {
    RunKeepsInv(cap, win, true, Init(t0), es);
    var s := After(cap, win, true, Init(t0), es);
    if k < |s.admissions| {
      AdmissionsFollowSchedule(cap, win, s.arrivals, s.admissions, k);
    } else {
      LaterIsScheduledLater(cap, win, s.arrivals, s.admissions, k);
    }
  }

  /** Optimality: no schedule that admits nobody early and respects the quota is ahead of a punctual
      run.  When it has made its k-th admission the limiter has made its own, no later. */
  lemma LimiterIsOptimal(cap: nat, win: real, t0: real, es: seq<Event>, other: seq<real>, k: nat)
    requires cap >= 1 && win >= 0.0 && IsRun(cap, win, true, Init(t0), es)
    requires var s := After(cap, win, true, Init(t0), es);
      && k < |other| <= |s.arrivals| && Ascending(other) && RespectsQuota(cap, win, other)
      && forall i :: 0 <= i < |other| ==> s.arrivals[i] <= other[i]
    ensures var s := After(cap, win, true, Init(t0), es);
      && (other[k] < s.now ==> k < |s.admissions|)
      && (k < |s.admissions| ==> s.admissions[k] <= other[k])
  {
    EverybodyIsAdmittedOnSchedule(cap, win, t0, es, k);
    QuotaIffSpaced(cap, win, other);
    ScheduleIsEarliest(cap, win, After(cap, win, true, Init(t0), es).arrivals, other, k);
  }

  /** Of N requests at one moment, the k-th waits k / cap windows, hence the last (N - 1) / cap. */
  lemma BurstTakesWholeWindows(cap: nat, win: real, arrivals: seq<real>, r: real, k: nat)
    requires cap >= 1 && win >= 0.0 && k < |arrivals| && forall i :: 0 <= i < |arrivals| ==> arrivals[i] == r
    ensures Schedule(cap, win, arrivals, k) == r + (k / cap) as real * win
  {
    BurstRounds(cap, win, arrivals, r, k, k / cap);
  }

  lemma {:induction false} BurstRounds(cap: nat, win: real, arrivals: seq<real>, r: real, k: nat, q: nat)
    requires cap >= 1 && win >= 0.0 && k < |arrivals| && forall i :: 0 <= i < |arrivals| ==> arrivals[i] == r
    requires q * cap <= k < q * cap + cap
    ensures Schedule(cap, win, arrivals, k) == r + q as real * win
    decreases q
  {
    if q > 0 {
      assert (q - 1) * cap == q * cap - cap;
      BurstRounds(cap, win, arrivals, r, k - cap, q - 1);
      assert (q - 1) as real * win + win == q as real * win;
      assert (q - 1) as real * win >= 0.0;
    }
  }
}
