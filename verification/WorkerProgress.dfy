/** How long the queue can take: a measure that falls with every claim and every recorded outcome,
    how many claims can pass a ready job, and that every job can be brought to an end. */
module WorkerProgress {
  import opened Prelude
  import opened JobQueue
  import opened Workers
  import opened WorkerRuns

  /** f(0) + ... + f(n - 1) */
  ghost function Sum(f: nat -> nat, n: nat): nat {
    if n == 0 then 0 else Sum(f, n - 1) + f(n - 1)
  }

  lemma {:induction false} SumChangesAt(f: nat -> nat, g: nat -> nat, n: nat, k: nat)
    requires forall i: nat :: i < n && i != k ==> f(i) == g(i)
    ensures Sum(g, n) - Sum(f, n) == if k < n then g(k) - f(k) else 0
  {
    if n > 0 {
      SumChangesAt(f, g, n - 1, k);
    }
  }

  lemma {:induction false} SumLowers(f: nat -> nat, g: nat -> nat, n: nat)
    requires forall i: nat :: i < n ==> g(i) <= f(i)
    ensures Sum(g, n) <= Sum(f, n)
  {
    if n > 0 {
      SumLowers(f, g, n - 1);
    }
  }

  // ---------------------------------------------------------------- termination

  /** Twice the attempts a job may still need, less one while it is in flight. */
  function Work(r: Retry, t: Table, id: nat): nat {
    if id !in t.rows then 0
    else match t.rows[id].status
      case Pending => 2 * Max(1, r.maxAttempts - t.rows[id].attempts)
      case InFlight => 2 * Max(1, r.maxAttempts - t.rows[id].attempts) - 1
      case _ => 0
  }

  ghost function WorkOf(r: Retry, t: Table): nat -> nat {
    (id: nat) => Work(r, t, id)
  }

  ghost function Measure(r: Retry, t: Table): nat {
    Sum(WorkOf(r, t), t.lastId + 1)
  }

  /** Steps that claim a job or record its outcome. */
  predicate Productive(e: Event) {
    e.Update? || e.Settle?
  }

  lemma RowWorkLowers(c: Config, s: State, e: Event)
    requires SoloInv(c, s) && Enabled(s, e) && Productive(e)
    ensures var t, id := Next(c, s, e), s.pcs[e.w].job.id;
      && Work(c.retry, t.table, id) < Work(c.retry, s.table, id) && id <= s.table.lastId == t.table.lastId
      && forall i :: i != id ==> Work(c.retry, t.table, i) == Work(c.retry, s.table, i)
  {
    var id := s.pcs[e.w].job.id;
    assert PcOk(c, s, e.w) && Fresh(s.table, s.now, s.pcs[e.w]) && RowAccounted(c.retry, s, id);
  }

  lemma ProductiveStepLowers(c: Config, s: State, e: Event)
    requires SoloInv(c, s) && Enabled(s, e) && Productive(e)
    ensures Measure(c.retry, Next(c, s, e).table) < Measure(c.retry, s.table)
  {
    RowWorkLowers(c, s, e);
    SumChangesAt(WorkOf(c.retry, s.table), WorkOf(c.retry, Next(c, s, e).table), s.table.lastId + 1, s.pcs[e.w].job.id);
  }

  function ProductiveSteps(es: seq<Event>): nat {
    if es == [] then 0 else ProductiveSteps(es[1..]) + if Productive(es[0]) then 1 else 0
  }

  /** Without enqueues and crashes, the claims and outcomes of any run are paid for by the measure. */
  lemma {:induction false} WorkIsBounded(c: Config, s: State, es: seq<Event>)
    requires SoloInv(c, s) && IsRun(c, s, es)
    requires forall k :: 0 <= k < |es| ==> !es[k].Enqueue? && !es[k].Crash?
    ensures ProductiveSteps(es) + Measure(c.retry, After(c, s, es).table) <= Measure(c.retry, s.table)
    decreases |es|
  {
    if es != [] {
      if Productive(es[0]) {
        ProductiveStepLowers(c, s, es[0]);
      }
      StepKeepsSolo(c, s, es[0]);
      WorkIsBounded(c, Next(c, s, es[0]), es[1..]);
    }
  }

  /** No new job, no crash, and the provider says ok. */
  predicate Smooth(e: Event) {
    !e.Enqueue? && !e.Crash? && (e.Return? ==> AsResult(e.outcome).ok)
  }

  /** From every state each unfinished job of a served CDN can be brought nearer its end, by that
      CDN's worker alone and without a new job, a crash or a refusal. */
  lemma CanProgress(c: Config, s: State, id: nat, w: nat) returns (es: seq<Event>)
    requires SoloInv(c, s) && id in s.table.rows && !Finished(s.table, id)
    requires w < |c.serves| && c.serves[w] == s.table.rows[id].cdn
    ensures IsRun(c, s, es) && Measure(c.retry, After(c, s, es).table) < Measure(c.retry, s.table)
    ensures forall k :: 0 <= k < |es| ==> Smooth(es[k])
  {
    match s.pcs[w]
    case Selected(_) =>
      es := Then(c, s, Update(w), []);
      ProductiveStepLowers(c, s, Update(w));
    case Calling(_) =>
      var back := Return(w, Returned(Result(true, false, "")));
      var t := Next(c, s, back);
      StepKeepsSolo(c, s, back);
      ProductiveStepLowers(c, t, Settle(w));
      es := Then(c, t, Settle(w), []);
      es := Then(c, s, back, es);
    case Settling(_, _) =>
      es := Then(c, s, Settle(w), []);
      ProductiveStepLowers(c, s, Settle(w));
    case Idle =>
      es := CanClaim(c, s, id, w);
  }

  lemma CanClaimReady(c: Config, s: State, id: nat, w: nat) returns (es: seq<Event>)
    requires SoloInv(c, s) && w < |c.serves| && s.pcs[w].Idle? && Ready(s.table, c.serves[w], s.now, id)
    ensures IsRun(c, s, es) && Measure(c.retry, After(c, s, es).table) < Measure(c.retry, s.table)
    ensures forall k :: 0 <= k < |es| ==> Smooth(es[k])
  {
    assert id <= s.table.lastId;
    var t := Next(c, s, Select(w));
    assert t.pcs[w].Selected? && t.table == s.table;
    StepKeepsSolo(c, s, Select(w));
    ProductiveStepLowers(c, t, Update(w));
    es := Then(c, t, Update(w), []);
    es := Then(c, s, Select(w), es);
  }

  lemma CanClaim(c: Config, s: State, id: nat, w: nat) returns (es: seq<Event>)
    requires SoloInv(c, s) && id in s.table.rows && !Finished(s.table, id)
    requires w < |c.serves| && c.serves[w] == s.table.rows[id].cdn && s.pcs[w].Idle?
    ensures IsRun(c, s, es) && Measure(c.retry, After(c, s, es).table) < Measure(c.retry, s.table)
    ensures forall k :: 0 <= k < |es| ==> Smooth(es[k])
  {
    if s.table.rows[id].status == InFlight {
      NobodyElse(c, s, id, w);
    }
    var at := s.table.rows[id].nextAttemptAt;
    var later := Tick(if at <= s.now then s.now else at);
    StepKeepsSolo(c, s, later);
    es := CanClaimReady(c, Next(c, s, later), id, w);
    es := Then(c, s, later, es);
  }

  lemma Then(c: Config, s: State, e: Event, es: seq<Event>) returns (all: seq<Event>)
    requires |s.pcs| == |c.serves| && Enabled(s, e) && IsRun(c, Next(c, s, e), es)
    ensures all == [e] + es && IsRun(c, s, all) && After(c, s, all) == After(c, Next(c, s, e), es)
  {
    all := [e] + es;
    assert all[1..] == es;
  }

  /** A job in flight is held by the worker of its CDN. */
  lemma NobodyElse(c: Config, s: State, id: nat, w: nat)
    requires SoloInv(c, s) && id in s.table.rows && s.table.rows[id].status == InFlight
    requires w < |c.serves| && c.serves[w] == s.table.rows[id].cdn
    ensures Holds(s, w, id)
  {
    assert RowOk(s, id);
    var v: nat :| Holds(s, v, id);
    assert PcOk(c, s, v);
  }

  lemma {:induction false} RunsJoin(c: Config, s: State, es: seq<Event>, more: seq<Event>)
    requires IsRun(c, s, es) && IsRun(c, After(c, s, es), more)
    ensures IsRun(c, s, es + more) && After(c, s, es + more) == After(c, After(c, s, es), more)
    decreases |es|
  {
    if es == [] {
      assert es + more == more;
    } else {
      RunsJoin(c, Next(c, s, es[0]), es[1..], more);
      assert (es + more)[1..] == es[1..] + more;
    }
  }

  ghost predicate AllFinished(t: Table) {
    forall id :: id in t.rows ==> Finished(t, id)
  }

  /** A worker serves the CDN of every job. */
  ghost predicate AllServed(c: Config, t: Table) {
    forall id {:trigger Served(c, t, id)} :: id in t.rows ==> Served(c, t, id)
  }

  ghost predicate Served(c: Config, t: Table, id: nat)
    requires id in t.rows
  {
    t.rows[id].cdn in c.serves
  }

  /** Nobody holds a refusal of the job. */
  ghost predicate Unrefused(s: State, id: nat) {
    && id in s.table.rows && s.table.rows[id].status != Failed
    && forall w {:trigger s.pcs[w]} :: 0 <= w < |s.pcs| && s.pcs[w].Settling? && s.pcs[w].job.id == id ==>
         s.pcs[w].result.ok
  }

  lemma {:induction false} UnrefusedToTheEnd(c: Config, s: State, es: seq<Event>, id: nat)
    requires IsRun(c, s, es) && Unrefused(s, id) && forall k :: 0 <= k < |es| ==> Smooth(es[k])
    ensures Unrefused(After(c, s, es), id)
    decreases |es|
  {
    if es != [] {
      assert Smooth(es[0]);
      UnrefusedToTheEnd(c, Next(c, s, es[0]), es[1..], id);
    }
  }

  /** Every state can be drained: when each CDN in the table is served, some run without new jobs,
      crashes and refusals finishes all jobs, and those that were pending are done. */
  lemma CanDrain(c: Config, s: State) returns (es: seq<Event>)
    requires SoloInv(c, s) && AllServed(c, s.table)
    ensures IsRun(c, s, es) && forall k :: 0 <= k < |es| ==> Smooth(es[k])
    ensures AllFinished(After(c, s, es).table) && After(c, s, es).table.rows.Keys == s.table.rows.Keys
    ensures forall id :: Claimable(s.table, id) ==> After(c, s, es).table.rows[id].status == Done
  {
    es := CanFinish(c, s);
    SameJobs(c, s, es);
    var t := After(c, s, es);
    forall id | Claimable(s.table, id) ensures t.table.rows[id].status == Done {
      forall w | 0 <= w < |s.pcs| ensures !(s.pcs[w].Settling? && s.pcs[w].job.id == id) {
        assert PcOk(c, s, w);
      }
      UnrefusedToTheEnd(c, s, es, id);
      assert Finished(t.table, id);
    }
  }

  lemma {:induction false} CanFinish(c: Config, s: State) returns (es: seq<Event>)
    requires SoloInv(c, s) && AllServed(c, s.table)
    ensures IsRun(c, s, es) && AllFinished(After(c, s, es).table)
    ensures forall k :: 0 <= k < |es| ==> Smooth(es[k])
    decreases Measure(c.retry, s.table)
  {
    if AllFinished(s.table) {
      es := [];
    } else {
      var id :| id in s.table.rows && !Finished(s.table, id);
      assert Served(c, s.table, id);
      var w :| 0 <= w < |c.serves| && c.serves[w] == s.table.rows[id].cdn;
      es := CanProgress(c, s, id, w);
      StillServed(c, s, es);
      var more := CanFinish(c, After(c, s, es));
      RunsJoin(c, s, es, more);
      es := es + more;
    }
  }

  lemma StillServed(c: Config, s: State, es: seq<Event>)
    requires SoloInv(c, s) && AllServed(c, s.table) && IsRun(c, s, es)
    requires forall k :: 0 <= k < |es| ==> !es[k].Enqueue?
    ensures SoloInv(c, After(c, s, es)) && AllServed(c, After(c, s, es).table)
  {
    RunKeepsSolo(c, s, es);
    RunKeepsInv(c, s, es);
    SameJobs(c, s, es);
    var t := After(c, s, es);
    forall i | i in t.table.rows ensures Served(c, t.table, i) {
      assert Served(c, s.table, i) && SamePurge(s.table, t.table, i);
    }
  }

  lemma SameJobsStep(c: Config, s: State, e: Event)
    requires Inv(c, s) && Enabled(s, e) && !e.Enqueue?
    ensures Next(c, s, e).table.rows.Keys == s.table.rows.Keys
  {
    if e.Update? || e.Settle? {
      assert PcOk(c, s, e.w);
    }
  }

  lemma {:induction false} SameJobs(c: Config, s: State, es: seq<Event>)
    requires Inv(c, s) && IsRun(c, s, es) && forall k :: 0 <= k < |es| ==> !es[k].Enqueue?
    ensures After(c, s, es).table.rows.Keys == s.table.rows.Keys
    decreases |es|
  {
    if es != [] {
      StepKeepsInv(c, s, es[0]);
      SameJobsStep(c, s, es[0]);
      SameJobs(c, Next(c, s, es[0]), es[1..]);
    }
  }

  // ---------------------------------------------------------------- bounded bypass

  /** How many more times job i can be claimed in the absence of crashes, if it belongs to the CDN. */
  function Credit(r: Retry, t: Table, cdn: string, i: nat): nat {
    if i !in t.rows || t.rows[i].cdn != cdn then 0
    else match t.rows[i].status
      case Pending => Max(1, r.maxAttempts - t.rows[i].attempts)
      case InFlight => Max(0, r.maxAttempts - t.rows[i].attempts - 1)
      case _ => 0
  }

  ghost function CreditOf(r: Retry, t: Table, cdn: string): nat -> nat {
    (i: nat) => Credit(r, t, cdn, i)
  }

  /** Claims that can come before job j: those of smaller ids, and one more if the worker read a
      larger id before j was ready. */
  ghost function Ahead(c: Config, s: State, w: nat, j: nat): nat
    requires w < |s.pcs| == |c.serves|
  {
    Sum(CreditOf(c.retry, s.table, c.serves[w]), j) + if s.pcs[w].Selected? && s.pcs[w].job.id > j then 1 else 0
  }

  /** A step of another worker, or one that touches no row, leaves the credits of the CDN alone. */
  lemma CreditsUndisturbed(c: Config, s: State, e: Event, w: nat, j: nat)
    requires SoloInv(c, s) && Enabled(s, e) && !e.Crash? && w < |c.serves| && j <= s.table.lastId
    requires Productive(e) ==> e.w != w
    ensures Sum(CreditOf(c.retry, Next(c, s, e).table, c.serves[w]), j)
         == Sum(CreditOf(c.retry, s.table, c.serves[w]), j)
  {
    var t, cdn := Next(c, s, e), c.serves[w];
    if Productive(e) {
      assert PcOk(c, s, e.w) && c.serves[e.w] != c.serves[w];
    }
    SumChangesAt(CreditOf(c.retry, s.table, cdn), CreditOf(c.retry, t.table, cdn), j, j);
  }

  /** The CDN's own worker pays one credit to claim an older job and gains none by settling it. */
  lemma CreditIsSpent(c: Config, s: State, e: Event, j: nat)
    requires SoloInv(c, s) && Enabled(s, e) && Productive(e)
    ensures var cdn, id := c.serves[e.w], s.pcs[e.w].job.id;
      Sum(CreditOf(c.retry, Next(c, s, e).table, cdn), j) + (if e.Update? && id < j then 1 else 0)
      <= Sum(CreditOf(c.retry, s.table, cdn), j)
  {
    var t, cdn, id := Next(c, s, e), c.serves[e.w], s.pcs[e.w].job.id;
    assert PcOk(c, s, e.w) && Fresh(s.table, s.now, s.pcs[e.w]) && RowAccounted(c.retry, s, id);
    SumChangesAt(CreditOf(c.retry, s.table, cdn), CreditOf(c.retry, t.table, cdn), j, id);
  }

  lemma BypassStep(c: Config, s: State, e: Event, w: nat, j: nat)
    requires SoloInv(c, s) && Enabled(s, e) && !e.Crash? && w < |c.serves|
    requires Ready(s.table, c.serves[w], s.now, j) && Claimable(Next(c, s, e).table, j)
    ensures Ahead(c, Next(c, s, e), w, j) + (if e == Update(w) then 1 else 0) <= Ahead(c, s, w, j)
    ensures Ready(Next(c, s, e).table, c.serves[w], Next(c, s, e).now, j)
  {
    if Productive(e) {
      assert PcOk(c, s, e.w) && Fresh(s.table, s.now, s.pcs[e.w]);
    }
    if Productive(e) && e.w == w {
      CreditIsSpent(c, s, e, j);
    } else {
      CreditsUndisturbed(c, s, e, w, j);
    }
  }

  /** Claims made by worker w in a run. */
  function ClaimsBy(es: seq<Event>, w: nat): nat {
    if es == [] then 0 else ClaimsBy(es[1..], w) + if es[0] == Update(w) then 1 else 0
  }

  /** A run without crashes in which job j is still waiting at the end of every step. */
  ghost predicate WaitsThrough(c: Config, s: State, es: seq<Event>, j: nat)
    decreases |es|
  {
    && |s.pcs| == |c.serves| && Claimable(s.table, j)
    && (es != [] ==> Enabled(s, es[0]) && !es[0].Crash? && WaitsThrough(c, Next(c, s, es[0]), es[1..], j))
  }

  /** While a ready job waits, its CDN's worker claims no more than the credit of the older jobs,
      whatever is enqueued meanwhile. */
  lemma {:induction false} BypassIsBounded(c: Config, s: State, es: seq<Event>, w: nat, j: nat)
    requires SoloInv(c, s) && w < |c.serves| && Ready(s.table, c.serves[w], s.now, j) && WaitsThrough(c, s, es, j)
    ensures ClaimsBy(es, w) <= Ahead(c, s, w, j)
    decreases |es|
  {
    if es != [] {
      BypassStep(c, s, es[0], w, j);
      StepKeepsSolo(c, s, es[0]);
      BypassIsBounded(c, Next(c, s, es[0]), es[1..], w, j);
    }
  }

  /** The one beyond the credit does happen: job 1 is put off, job 2 is read, job 1 becomes ready, and
      then job 2 is claimed, with no older job in sight. */
  lemma LateUpdateBypasses(r: Retry, cdn: string, urls: seq<string>, error: string)
    requires r.maxAttempts >= 2 && r.initial > 0.0 && r.ceiling > 0.0
    ensures var c, es := Config(r, [cdn]), PutOff(cdn, urls, error) + ThenReady(r, cdn, urls);
      && IsRun(c, Init(c, 0.0), es)
      && var s := After(c, Init(c, 0.0), es);
         && |s.pcs| == 1 && Ready(s.table, cdn, s.now, 1) && Sum(CreditOf(r, s.table, cdn), 1) == 0
         && Enabled(s, Update(0)) && Claimable(Next(c, s, Update(0)).table, 1)
         && Next(c, s, Update(0)).pcs[0].Calling? && Next(c, s, Update(0)).pcs[0].job.id == 2
  {
    var c := Config(r, [cdn]);
    var s0 := Init(c, 0.0);
    FirstJobPutOff(r, cdn, urls, error);
    var s5 := After(c, s0, PutOff(cdn, urls, error));
    SecondJobRead(r, cdn, urls, s5);
    RunsJoin(c, s0, PutOff(cdn, urls, error), ThenReady(r, cdn, urls));
  }

  function PutOff(cdn: string, urls: seq<string>, error: string): seq<Event> {
    [Enqueue(cdn, urls), Select(0), Update(0), Return(0, Raised(error)), Settle(0)]
  }

  function ThenReady(r: Retry, cdn: string, urls: seq<string>): seq<Event> {
    [Enqueue(cdn, urls), Select(0), Tick(Delay(1, r.initial, r.ceiling))]
  }

  lemma FirstJobPutOff(r: Retry, cdn: string, urls: seq<string>, error: string)
    requires r.maxAttempts >= 2
    ensures var c, es := Config(r, [cdn]), PutOff(cdn, urls, error);
      && IsRun(c, Init(c, 0.0), es)
      && var s := After(c, Init(c, 0.0), es);
         && s.table == Table(map[1 := Row(cdn, urls, 1, Delay(1, r.initial, r.ceiling), 0.0, Pending, None)], 1)
         && s.pcs == [Idle] && s.now == 0.0
  {
    var c, es, s0 := Config(r, [cdn]), PutOff(cdn, urls, error), Init(Config(r, [cdn]), 0.0);
    FirstJobRead(r, cdn, urls);
    assert es[..2] == [Enqueue(cdn, urls), Select(0)];
    RunExtends(c, s0, es[..2], es[2]);
    assert es[..2] + [es[2]] == es[..3];
    RunExtends(c, s0, es[..3], es[3]);
    assert es[..3] + [es[3]] == es[..4];
    RunExtends(c, s0, es[..4], es[4]);
    assert es[..4] + [es[4]] == es;
  }

  lemma FirstJobRead(r: Retry, cdn: string, urls: seq<string>)
    ensures var c, es := Config(r, [cdn]), [Enqueue(cdn, urls), Select(0)];
      && IsRun(c, Init(c, 0.0), es)
      && var s := After(c, Init(c, 0.0), es);
         && s.table == Table(map[1 := Row(cdn, urls, 0, 0.0, 0.0, Pending, None)], 1)
         && s.pcs == [Selected(Job(1, cdn, urls, 0, 0.0, 0.0))] && s.now == 0.0
  {
    var c, s0 := Config(r, [cdn]), Init(Config(r, [cdn]), 0.0);
    RunExtends(c, s0, [], Enqueue(cdn, urls));
    assert [] + [Enqueue(cdn, urls)] == [Enqueue(cdn, urls)];
    var s1 := After(c, s0, [Enqueue(cdn, urls)]);
    assert Ready(s1.table, cdn, 0.0, 1) && LeastReady(s1.table, cdn, 0.0, 0) == Some(1);
    RunExtends(c, s0, [Enqueue(cdn, urls)], Select(0));
    assert [Enqueue(cdn, urls)] + [Select(0)] == [Enqueue(cdn, urls), Select(0)];
  }

  lemma SecondJobRead(r: Retry, cdn: string, urls: seq<string>, s: State)
    requires r.maxAttempts >= 2 && r.initial > 0.0 && r.ceiling > 0.0 && s.pcs == [Idle] && s.now == 0.0
    requires s.table == Table(map[1 := Row(cdn, urls, 1, Delay(1, r.initial, r.ceiling), 0.0, Pending, None)], 1)
    ensures var c, es := Config(r, [cdn]), ThenReady(r, cdn, urls);
      && IsRun(c, s, es)
      && var t := After(c, s, es);
         && |t.pcs| == 1 && Ready(t.table, cdn, t.now, 1) && Sum(CreditOf(r, t.table, cdn), 1) == 0
         && Enabled(t, Update(0)) && Claimable(Next(c, t, Update(0)).table, 1)
         && Next(c, t, Update(0)).pcs[0].Calling? && Next(c, t, Update(0)).pcs[0].job.id == 2
  {
    var c, es := Config(r, [cdn]), ThenReady(r, cdn, urls);
    RunExtends(c, s, [], es[0]);
    assert [] + [es[0]] == es[..1];
    var s1 := After(c, s, es[..1]);
    assert !Ready(s1.table, cdn, 0.0, 1) && Ready(s1.table, cdn, 0.0, 2);
    assert LeastReady(s1.table, cdn, 0.0, 0) == Some(2);
    RunExtends(c, s, es[..1], es[1]);
    assert es[..1] + [es[1]] == es[..2];
    RunExtends(c, s, es[..2], es[2]);
    assert es[..2] + [es[2]] == es;
  }
}
