/** Whole runs of the queue workers when, as in the daemon, no two of them serve one CDN. */
module WorkerRuns {
  import opened Prelude
  import opened JobQueue
  import opened Workers

  // ---------------------------------------------------------------- fresh snapshots, exact counts

  /** The worker's copy of its job still equals the row, apart from the status. */
  ghost predicate Fresh(t: Table, now: real, pc: Pc) {
    !pc.Idle? ==>
      && pc.job.id in t.rows && Snapshot(t, pc.job.id) == pc.job
      && (pc.Selected? ==> t.rows[pc.job.id].status == Pending && pc.job.nextAttemptAt <= now)
  }

  /** Claim b follows claim a of one job: the same attempt again after a crash, or the next attempt
      no sooner than the backoff allows. */
  predicate Follows(r: Retry, a: ClaimRecord, b: ClaimRecord) {
    a.attempt >= 1 && (b.attempt == a.attempt ||
                       (b.attempt == a.attempt + 1 && b.at >= a.at + Delay(a.attempt, r.initial, r.ceiling)))
  }

  predicate FollowsAt(r: Retry, claims: seq<ClaimRecord>, k: nat)
    requires 1 <= k < |claims|
  {
    Follows(r, claims[k - 1], claims[k])
  }

  /** The job was last claimed for its current attempt, or put off after a failed one. */
  predicate LastClaimOk(r: Retry, row: Row, last: ClaimRecord, now: real) {
    && last.at <= now && last.attempt >= 1
    && (last.attempt == row.attempts + 1 ||
        (row.status == Pending && last.attempt == row.attempts
         && row.nextAttemptAt >= last.at + Delay(last.attempt, r.initial, r.ceiling)))
  }

  /** Every claim of a job is accounted for: by an attempt that failed, by a crash, or by what the
      job is now. */
  ghost predicate Accounted(r: Retry, row: Row, claims: seq<ClaimRecord>, crashes: nat, now: real) {
    && |claims| == row.attempts + crashes + (if row.status == Pending then 0 else 1)
    && (row.attempts == 0 || row.attempts < r.maxAttempts)
    && (forall k :: 1 <= k < |claims| ==> FollowsAt(r, claims, k))
    && (claims != [] ==> LastClaimOk(r, row, claims[|claims| - 1], now))
    && (crashes == 0 ==> forall k :: 0 <= k < |claims| ==> claims[k].attempt == k + 1)
  }

  ghost predicate RowAccounted(r: Retry, s: State, id: nat)
    requires id in s.table.rows
  {
    Accounted(r, s.table.rows[id], ClaimsOf(s, id), s.interrupted[id], s.now)
  }

  ghost predicate SoloInv(c: Config, s: State) {
    && OnePerCdn(c) && Inv(c, s)
    && (forall w {:trigger Fresh(s.table, s.now, s.pcs[w])} :: 0 <= w < |s.pcs| ==> Fresh(s.table, s.now, s.pcs[w]))
    && (forall id {:trigger RowAccounted(c.retry, s, id)} :: id in s.table.rows ==> RowAccounted(c.retry, s, id))
    && (forall id {:trigger WhyFailed(c.retry, s, id)} :: id in s.table.rows ==> WhyFailed(c.retry, s, id))
  }

  /** A failed row: the provider refused it for good, or on its last attempt. */
  ghost predicate WhyFailed(r: Retry, s: State, id: nat)
    requires id in s.table.rows
  {
    s.table.rows[id].status == Failed ==>
      exists k :: 0 <= k < |s.calls| && LastStraw(r, s.calls[k], id, s.table.rows[id])
  }

  predicate LastStraw(r: Retry, call: Call, id: nat, row: Row) {
    GaveUp(call, id, row) && (!call.result.retryable || row.attempts + 1 >= r.maxAttempts)
  }

  lemma DifferentJobs(c: Config, s: State, v: nat, w: nat)
    requires SoloInv(c, s) && v < |s.pcs| && w < |s.pcs| && v != w && !s.pcs[v].Idle? && !s.pcs[w].Idle?
    ensures s.pcs[v].job.id != s.pcs[w].job.id
  {
    assert PcOk(c, s, v) && PcOk(c, s, w);
    assert c.serves[v] != c.serves[w];
  }

  lemma ClaimAccounted(r: Retry, row: Row, claims: seq<ClaimRecord>, crashes: nat, now: real)
    requires Accounted(r, row, claims, crashes, now) && row.status == Pending && row.nextAttemptAt <= now
    ensures Accounted(r, row.(status := InFlight), claims + [ClaimRecord(now, row.attempts + 1)], crashes, now)
  {
    var more := claims + [ClaimRecord(now, row.attempts + 1)];
    forall k | 1 <= k < |more| ensures FollowsAt(r, more, k) {
      if k < |claims| {
        assert FollowsAt(r, claims, k);
      }
    }
  }

  /** Worker v's snapshot stays fresh: another worker's step is about another job. */
  lemma FreshStep(c: Config, s: State, e: Event, v: nat)
    requires SoloInv(c, s) && Enabled(s, e) && v < |s.pcs|
    ensures var t := Next(c, s, e); Fresh(t.table, t.now, t.pcs[v])
  {
    assert Fresh(s.table, s.now, s.pcs[v]);
    if (e.Update? || e.Settle?) && e.w != v && !s.pcs[v].Idle? {
      DifferentJobs(c, s, v, e.w);
    }
  }

  lemma AccountedUpdate(c: Config, s: State, w: nat, i: nat)
    requires SoloInv(c, s) && Enabled(s, Update(w)) && i in s.table.rows
    ensures var t := Next(c, s, Update(w)); i in t.table.rows && RowAccounted(c.retry, t, i)
  {
    assert RowAccounted(c.retry, s, i) && Fresh(s.table, s.now, s.pcs[w]);
    if s.pcs[w].job.id == i {
      ClaimAccounted(c.retry, s.table.rows[i], ClaimsOf(s, i), s.interrupted[i], s.now);
    }
  }

  lemma AccountedSettle(c: Config, s: State, w: nat, i: nat)
    requires SoloInv(c, s) && Enabled(s, Settle(w)) && i in s.table.rows
    ensures var t := Next(c, s, Settle(w)); i in t.table.rows && RowAccounted(c.retry, t, i)
  {
    assert RowAccounted(c.retry, s, i) && Fresh(s.table, s.now, s.pcs[w]) && PcOk(c, s, w);
    if s.pcs[w].job.id == i {
      OutcomeAccounted(c.retry, s.table, s.pcs[w].job, s.pcs[w].result, ClaimsOf(s, i), s.interrupted[i], s.now);
    }
  }

  lemma OutcomeAccounted(r: Retry, t: Table, job: Job, result: Result, claims: seq<ClaimRecord>, crashes: nat,
                         now: real)
    requires job.id in t.rows && t.rows[job.id].status == InFlight && t.rows[job.id].attempts == job.attempts
    requires Accounted(r, t.rows[job.id], claims, crashes, now)
    ensures Accounted(r, Record(r, t, job, result, now).rows[job.id], claims, crashes, now)
  {
  }

  lemma AccountedStep(c: Config, s: State, e: Event, i: nat)
    requires SoloInv(c, s) && Enabled(s, e) && i in s.table.rows && !e.Crash?
    ensures var t := Next(c, s, e); i in t.table.rows && RowAccounted(c.retry, t, i)
  {
    assert RowAccounted(c.retry, s, i);
    match e
    case Update(w) => AccountedUpdate(c, s, w, i);
    case Settle(w) => AccountedSettle(c, s, w, i);
    case _ =>
  }

  lemma AccountedCrash(c: Config, s: State, i: nat)
    requires SoloInv(c, s) && i in s.table.rows
    ensures RowAccounted(c.retry, Next(c, s, Crash), i)
  {
    var t, hit := Next(c, s, Crash), multiset(WithStatus(s.table, InFlight));
    assert RowAccounted(c.retry, s, i);
    assert t.interrupted[i] == s.interrupted[i] + hit[i];
    assert hit[i] == if s.table.rows[i].status == InFlight then 1 else 0;
  }

  lemma WhyFailedStep(c: Config, s: State, e: Event, i: nat)
    requires SoloInv(c, s) && Enabled(s, e) && i in s.table.rows
    ensures var t := Next(c, s, e); i in t.table.rows && WhyFailed(c.retry, t, i)
  {
    var t, row := Next(c, s, e), s.table.rows[i];
    assert WhyFailed(c.retry, s, i);
    if e.Update? || e.Settle? {
      assert PcOk(c, s, e.w) && Fresh(s.table, s.now, s.pcs[e.w]);
    }
    if e.Settle? && s.pcs[e.w].job.id == i {
      var job, result := s.pcs[e.w].job, s.pcs[e.w].result;
      var k :| 0 <= k < |s.calls| && s.calls[k] == Call(job.id, job.urls, result);
      assert t.table.rows[i].status == Failed ==> LastStraw(c.retry, t.calls[k], i, t.table.rows[i]);
    } else if row.status == Failed {
      var k :| 0 <= k < |s.calls| && LastStraw(c.retry, s.calls[k], i, row);
      assert LastStraw(c.retry, t.calls[k], i, t.table.rows[i]);
    }
  }

  lemma StepKeepsSolo(c: Config, s: State, e: Event)
    requires SoloInv(c, s) && Enabled(s, e)
    ensures SoloInv(c, Next(c, s, e))
  {
    StepKeepsInv(c, s, e);
    var t := Next(c, s, e);
    forall v | 0 <= v < |t.pcs| ensures Fresh(t.table, t.now, t.pcs[v]) {
      FreshStep(c, s, e, v);
    }
    forall i | i in t.table.rows ensures WhyFailed(c.retry, t, i) {
      if i in s.table.rows {
        WhyFailedStep(c, s, e, i);
      }
    }
    forall i | i in t.table.rows ensures RowAccounted(c.retry, t, i) {
      if i !in s.table.rows {
        NewRowAccounted(c, s, e, i);
      } else if e.Crash? {
        AccountedCrash(c, s, i);
      } else {
        AccountedStep(c, s, e, i);
      }
    }
  }

  lemma NewRowAccounted(c: Config, s: State, e: Event, i: nat)
    requires SoloInv(c, s) && Enabled(s, e) && i !in s.table.rows && i in Next(c, s, e).table.rows
    ensures RowAccounted(c.retry, Next(c, s, e), i)
  {
  }

  lemma {:induction false} RunKeepsSolo(c: Config, s: State, es: seq<Event>)
    requires SoloInv(c, s) && IsRun(c, s, es)
    ensures SoloInv(c, After(c, s, es))
    decreases |es|
  {
    if es != [] {
      StepKeepsSolo(c, s, es[0]);
      RunKeepsSolo(c, Next(c, s, es[0]), es[1..]);
    }
  }

  lemma Reachable(c: Config, t: real, es: seq<Event>)
    requires OnePerCdn(c) && IsRun(c, Init(c, t), es)
    ensures SoloInv(c, After(c, Init(c, t), es))
  {
    InitInv(c, t);
    RunKeepsSolo(c, Init(c, t), es);
  }

  /** At most one row of a CDN is in flight. */
  lemma OneInFlightPerCdn(c: Config, t: real, es: seq<Event>, i: nat, j: nat)
    requires OnePerCdn(c) && IsRun(c, Init(c, t), es)
    ensures var rows := After(c, Init(c, t), es).table.rows;
      i in rows && j in rows && rows[i].status == rows[j].status == InFlight && rows[i].cdn == rows[j].cdn ==> i == j
  {
    Reachable(c, t, es);
    var s := After(c, Init(c, t), es);
    var rows := s.table.rows;
    if i in rows && j in rows && rows[i].status == rows[j].status == InFlight && rows[i].cdn == rows[j].cdn {
      assert RowOk(s, i) && RowOk(s, j);
      var v: nat :| Holds(s, v, i);
      var w: nat :| Holds(s, w, j);
      assert PcOk(c, s, v) && PcOk(c, s, w);
    }
  }

  /** A worker that goes ahead with a claim gets the row as it is, and at the SELECT it was the
      least ready one. */
  lemma ClaimIsFreshAndLeast(c: Config, t: real, es: seq<Event>, w: nat)
    requires OnePerCdn(c) && IsRun(c, Init(c, t), es)
    ensures var s := After(c, Init(c, t), es);
      && |s.pcs| == |c.serves|
      && (w < |s.pcs| && s.pcs[w].Selected? ==>
            Claimable(s.table, s.pcs[w].job.id) && s.pcs[w].job == Snapshot(s.table, s.pcs[w].job.id))
      && (w < |s.pcs| && Holding(s.pcs[w]) ==>
            s.pcs[w].job.id in s.table.rows && s.pcs[w].job == Snapshot(s.table, s.pcs[w].job.id))
      && (w < |s.pcs| && s.pcs[w].Idle? ==>
            var u := Next(c, s, Select(w));
            && (u.pcs[w].Idle? <==> forall id :: !Ready(s.table, c.serves[w], s.now, id))
            && (u.pcs[w].Selected? ==> Ready(s.table, c.serves[w], s.now, u.pcs[w].job.id))
            && (u.pcs[w].Selected? ==> forall id :: Ready(s.table, c.serves[w], s.now, id) ==> u.pcs[w].job.id <= id))
  {
    Reachable(c, t, es);
    var s := After(c, Init(c, t), es);
    if w < |s.pcs| {
      assert Fresh(s.table, s.now, s.pcs[w]);
    }
  }

  /** Two workers v and w on one CDN: v reads the row before w claims it, fails and puts it off, and then
      v claims it believing no attempt was made. */
  lemma StaleWithTwoWorkers(c: Config, v: nat, w: nat, urls: seq<string>, error: string)
    requires v < |c.serves| && w < |c.serves| && v != w && c.serves[v] == c.serves[w] && c.retry.maxAttempts >= 2
    ensures var es := BothRead(c, v, w, urls) + [Update(w), Return(w, Raised(error)), Settle(w), Update(v)];
      && IsRun(c, Init(c, 0.0), es)
      && var s := After(c, Init(c, 0.0), es);
         && |s.pcs| == |c.serves| && s.pcs[v] == Calling(Job(1, c.serves[v], urls, 0, 0.0, 0.0))
         && s.now == 0.0 && 1 in s.table.rows
         && var due := Delay(1, c.retry.initial, c.retry.ceiling);
            s.table.rows[1] == Row(c.serves[v], urls, 1, due, 0.0, InFlight, None)
  {
    var s0, es := Init(c, 0.0), BothRead(c, v, w, urls);
    BothReadOneJob(c, v, w, urls);
    SecondFails(c, v, w, urls, error, es);
    var more := es + [Update(w)] + [Return(w, Raised(error))] + [Settle(w)];
    RunExtends(c, s0, more, Update(v));
    assert more + [Update(v)] == es + [Update(w), Return(w, Raised(error)), Settle(w), Update(v)];
  }

  function BothRead(c: Config, v: nat, w: nat, urls: seq<string>): seq<Event>
    requires v < |c.serves|
  {
    [Enqueue(c.serves[v], urls), Select(v), Select(w)]
  }

  lemma BothReadOneJob(c: Config, v: nat, w: nat, urls: seq<string>)
    requires v < |c.serves| && w < |c.serves| && v != w && c.serves[v] == c.serves[w]
    ensures var es, cdn := BothRead(c, v, w, urls), c.serves[v];
      && IsRun(c, Init(c, 0.0), es)
      && var s, job := After(c, Init(c, 0.0), es), Job(1, cdn, urls, 0, 0.0, 0.0);
         && |s.pcs| == |c.serves| && s.pcs[v] == s.pcs[w] == Selected(job) && s.now == 0.0
         && s.table == Table(map[1 := Row(cdn, urls, 0, 0.0, 0.0, Pending, None)], 1)
  {
    var es, s0 := BothRead(c, v, w, urls), Init(c, 0.0);
    RunExtends(c, s0, [], es[0]);
    assert [] + [es[0]] == es[..1];
    var s1 := After(c, s0, es[..1]);
    assert Ready(s1.table, c.serves[v], 0.0, 1) && LeastReady(s1.table, c.serves[v], 0.0, 0) == Some(1);
    RunExtends(c, s0, es[..1], es[1]);
    assert es[..1] + [es[1]] == es[..2];
    RunExtends(c, s0, es[..2], es[2]);
    assert es[..2] + [es[2]] == es;
  }

  lemma SecondFails(c: Config, v: nat, w: nat, urls: seq<string>, error: string, es: seq<Event>)
    requires v < |c.serves| && w < |c.serves| && v != w && c.retry.maxAttempts >= 2 && IsRun(c, Init(c, 0.0), es)
    requires var s, job := After(c, Init(c, 0.0), es), Job(1, c.serves[v], urls, 0, 0.0, 0.0);
      && |s.pcs| == |c.serves| && s.pcs[v] == s.pcs[w] == Selected(job) && s.now == 0.0
      && s.table == Table(map[1 := Row(c.serves[v], urls, 0, 0.0, 0.0, Pending, None)], 1)
    ensures var more := es + [Update(w)] + [Return(w, Raised(error))] + [Settle(w)];
      && IsRun(c, Init(c, 0.0), more)
      && var s := After(c, Init(c, 0.0), more);
         && |s.pcs| == |c.serves| && s.pcs[v] == Selected(Job(1, c.serves[v], urls, 0, 0.0, 0.0))
         && s.now == 0.0 && 1 in s.table.rows
         && s.table.rows[1] == Row(c.serves[v], urls, 1, Delay(1, c.retry.initial, c.retry.ceiling), 0.0, Pending, None)
  {
    var s0 := Init(c, 0.0);
    RunExtends(c, s0, es, Update(w));
    RunExtends(c, s0, es + [Update(w)], Return(w, Raised(error)));
    RunExtends(c, s0, es + [Update(w)] + [Return(w, Raised(error))], Settle(w));
  }

  /** A copy of a row as the row is. */
  predicate CopyFits(t: Table, pc: Pc) {
    !pc.Idle? ==> pc.job.id in t.rows && pc.job == Snapshot(t, pc.job.id)
  }

  /** Whoever works on a job has a copy of its row as it is. */
  ghost predicate NoStaleWork(s: State) {
    forall w :: 0 <= w < |s.pcs| && Holding(s.pcs[w]) ==> CopyFits(s.table, s.pcs[w])
  }

  /** With one attempt a row changes its status only. */
  lemma {:induction false} OneAttemptKeepsCopies(c: Config, s: State, es: seq<Event>)
    requires c.retry.maxAttempts <= 1 && IsRun(c, s, es) && WellFormed(s.table)
    requires forall w :: 0 <= w < |s.pcs| ==> CopyFits(s.table, s.pcs[w])
    ensures forall w :: 0 <= w < |After(c, s, es).pcs| ==> CopyFits(After(c, s, es).table, After(c, s, es).pcs[w])
    decreases |es|
  {
    if es != [] {
      var t := Next(c, s, es[0]);
      forall w | 0 <= w < |t.pcs| ensures CopyFits(t.table, t.pcs[w]) {
        assert CopyFits(s.table, s.pcs[w]);
      }
      OneAttemptKeepsCopies(c, t, es[1..]);
    }
  }

  /** In no run does anybody work on a stale copy if and only if no two workers serve one CDN or no job
      is ever tried again. */
  lemma StaleExactlyWithTwoWorkers(c: Config)
    ensures (forall t, es :: IsRun(c, Init(c, t), es) ==> NoStaleWork(After(c, Init(c, t), es)))
       <==> OnePerCdn(c) || c.retry.maxAttempts <= 1
  {
    if OnePerCdn(c) || c.retry.maxAttempts <= 1 {
      forall t, es | IsRun(c, Init(c, t), es) ensures NoStaleWork(After(c, Init(c, t), es)) {
        if OnePerCdn(c) {
          Reachable(c, t, es);
          var s := After(c, Init(c, t), es);
          forall w | 0 <= w < |s.pcs| ensures CopyFits(s.table, s.pcs[w]) {
            assert Fresh(s.table, s.now, s.pcs[w]);
          }
        } else {
          OneAttemptKeepsCopies(c, Init(c, t), es);
        }
      }
    } else {
      var v, w :| 0 <= v < w < |c.serves| && c.serves[v] == c.serves[w];
      StaleWithTwoWorkers(c, v, w, [], "");
      var es := BothRead(c, v, w, []) + [Update(w), Return(w, Raised("")), Settle(w), Update(v)];
      var s := After(c, Init(c, 0.0), es);
      assert Holding(s.pcs[v]) && !CopyFits(s.table, s.pcs[v]);
    }
  }

  // ---------------------------------------------------------------- when a job is due

  /** A row that was never put off is due since it was made; another from its last deferral, the k-th of
      which has lasted the k-th delay.  A row in flight was due. */
  ghost predicate RowDue(r: Retry, s: State, id: nat)
    requires id in s.table.rows
  {
    var row, ds := s.table.rows[id], DeferralsOf(s, id);
    && |ds| == row.attempts && (forall k {:trigger ds[k]} :: 0 <= k < |ds| ==> DeferralOk(r, ds, k))
    && row.nextAttemptAt == (if ds == [] then row.createdAt else ds[|ds| - 1].until)
    && row.createdAt <= s.now && (row.status == InFlight ==> row.nextAttemptAt <= s.now)
  }

  predicate DeferralOk(r: Retry, ds: seq<Deferral>, k: nat)
    requires k < |ds|
  {
    ds[k].until == ds[k].at + Delay(k + 1, r.initial, r.ceiling)
  }

  lemma SettledRowDue(c: Config, s: State, w: nat)
    requires SoloInv(c, s) && Enabled(s, Settle(w)) && s.pcs[w].job.id in s.table.rows
    requires RowDue(c.retry, s, s.pcs[w].job.id)
    ensures var t, id := Next(c, s, Settle(w)), s.pcs[w].job.id; id in t.table.rows && RowDue(c.retry, t, id)
  {
    var t, id := Next(c, s, Settle(w)), s.pcs[w].job.id;
    var ds, more := DeferralsOf(s, id), DeferralsOf(t, id);
    assert Fresh(s.table, s.now, s.pcs[w]) && PcOk(c, s, w);
    forall k | 0 <= k < |more| ensures DeferralOk(c.retry, more, k) {
      if k < |ds| {
        assert DeferralOk(c.retry, ds, k);
      }
    }
  }

  lemma RowDueStep(c: Config, s: State, e: Event, id: nat)
    requires SoloInv(c, s) && Enabled(s, e) && id in s.table.rows && RowDue(c.retry, s, id)
    ensures id in Next(c, s, e).table.rows && RowDue(c.retry, Next(c, s, e), id)
  {
    if e.Update? || e.Settle? {
      assert Fresh(s.table, s.now, s.pcs[e.w]) && PcOk(c, s, e.w);
    }
    if e.Settle? && s.pcs[e.w].job.id == id {
      SettledRowDue(c, s, e.w);
    } else {
      var t := Next(c, s, e);
      assert DeferralsOf(t, id) == DeferralsOf(s, id);
      assert forall k :: 0 <= k < |DeferralsOf(s, id)| ==> DeferralOk(c.retry, DeferralsOf(s, id), k);
    }
  }

  ghost predicate AllDue(r: Retry, s: State) {
    && s.deferrals.Keys <= s.table.rows.Keys
    && forall id {:trigger RowDue(r, s, id)} :: id in s.table.rows ==> RowDue(r, s, id)
  }

  lemma DeferralsAreOfRows(c: Config, s: State, e: Event)
    requires SoloInv(c, s) && Enabled(s, e) && s.deferrals.Keys <= s.table.rows.Keys
    ensures var t := Next(c, s, e); t.deferrals.Keys <= t.table.rows.Keys
    ensures forall id :: id !in s.table.rows && id in Next(c, s, e).table.rows ==> DeferralsOf(Next(c, s, e), id) == []
  {
    if e.Update? || e.Settle? {
      assert PcOk(c, s, e.w);
    }
  }

  lemma {:induction false} RunKeepsDue(c: Config, s: State, es: seq<Event>)
    requires SoloInv(c, s) && AllDue(c.retry, s) && IsRun(c, s, es)
    ensures AllDue(c.retry, After(c, s, es))
    decreases |es|
  {
    if es != [] {
      var t := Next(c, s, es[0]);
      StepKeepsSolo(c, s, es[0]);
      DeferralsAreOfRows(c, s, es[0]);
      forall id | id in t.table.rows ensures RowDue(c.retry, t, id) {
        if id in s.table.rows {
          assert RowDue(c.retry, s, id);
          RowDueStep(c, s, es[0], id);
        }
      }
      RunKeepsDue(c, t, es[1..]);
    }
  }

  /** For how long a job has been put off in all. */
  function PutOffFor(ds: seq<Deferral>): real {
    if ds == [] then 0.0 else PutOffFor(ds[..|ds| - 1]) + (ds[|ds| - 1].until - ds[|ds| - 1].at)
  }

  lemma {:induction false} PutOffForDelays(r: Retry, ds: seq<Deferral>)
    requires forall k :: 0 <= k < |ds| ==> DeferralOk(r, ds, k)
    ensures PutOffFor(ds) == TotalDelay(|ds| + 1, r.initial, r.ceiling)
  {
    if ds != [] {
      var front, n := ds[..|ds| - 1], |ds| - 1;
      forall k | 0 <= k < n ensures DeferralOk(r, front, k) {
        assert DeferralOk(r, ds, k);
      }
      PutOffForDelays(r, front);
      assert DeferralOk(r, ds, n);
    }
  }

  /** A job has as many deferrals as attempts, the k-th lasts exactly the k-th delay from the time its failure
      was recorded, and the row is due when the last one ends; all together they stay within the
      bounds of the delays. */
  ghost predicate BackoffOk(r: Retry, s: State, id: nat)
    requires id in s.table.rows
  {
    var row, ds := s.table.rows[id], DeferralsOf(s, id);
    && |ds| == row.attempts && row.nextAttemptAt == (if ds == [] then row.createdAt else ds[|ds| - 1].until)
    && (forall k :: 0 <= k < |ds| ==> ds[k].until == ds[k].at + Delay(k + 1, r.initial, r.ceiling))
    && (r.initial >= 0.0 && r.ceiling >= 0.0 ==>
          && PutOffFor(ds) <= r.initial * (Pow2(row.attempts) - 1) as real
          && PutOffFor(ds) <= row.attempts as real * r.ceiling)
  }

  lemma DueMeansBackoff(r: Retry, s: State, id: nat)
    requires id in s.table.rows && RowDue(r, s, id)
    ensures BackoffOk(r, s, id)
  {
    var ds := DeferralsOf(s, id);
    forall k | 0 <= k < |ds| ensures DeferralOk(r, ds, k) {
      assert ds[k] == ds[k];
    }
    PutOffForDelays(r, ds);
    if r.initial >= 0.0 && r.ceiling >= 0.0 {
      TotalDelayBound(|ds| + 1, r.initial, r.ceiling);
    }
  }

  /** This is so over every run. */
  lemma BackoffIsExact(c: Config, t: real, es: seq<Event>, id: nat)
    requires OnePerCdn(c) && IsRun(c, Init(c, t), es) && id in After(c, Init(c, t), es).table.rows
    ensures BackoffOk(c.retry, After(c, Init(c, t), es), id)
  {
    InitInv(c, t);
    RunKeepsDue(c, Init(c, t), es);
    assert RowDue(c.retry, After(c, Init(c, t), es), id);
    DueMeansBackoff(c.retry, After(c, Init(c, t), es), id);
  }

  /** A job enqueued while none of its CDN is ready is what a worker reads at that very time. */
  lemma NewJobIsReadAtOnce(c: Config, s: State, w: nat, urls: seq<string>)
    requires Inv(c, s) && w < |c.serves| && s.pcs[w].Idle? && forall id :: !Ready(s.table, c.serves[w], s.now, id)
    ensures var t := Next(c, s, Enqueue(c.serves[w], urls));
      && Enabled(t, Select(w)) && |t.pcs| == |c.serves|
      && var pc, id := Next(c, t, Select(w)).pcs[w], s.table.lastId + 1;
         pc == Selected(Job(id, c.serves[w], urls, 0, s.now, s.now))
  {
    var t := Next(c, s, Enqueue(c.serves[w], urls));
    assert Ready(t.table, c.serves[w], t.now, t.table.lastId);
    forall id | Ready(t.table, c.serves[w], t.now, id) ensures id == t.table.lastId {
      assert id != t.table.lastId ==> Ready(s.table, c.serves[w], s.now, id);
    }
  }

  // ---------------------------------------------------------------- recovery

  /** What a crash finds in flight is ready for its CDN the moment the daemon is up again. */
  ghost predicate RecoversAtOnce(c: Config, s: State)
    requires |s.pcs| == |c.serves|
  {
    var t := Next(c, s, Crash);
    forall id :: id in s.table.rows && s.table.rows[id].status == InFlight ==>
      Ready(t.table, s.table.rows[id].cdn, t.now, id)
  }

  ghost predicate NeverPutOff(s: State) {
    forall id :: id in s.table.rows ==> s.table.rows[id].nextAttemptAt <= s.now
  }

  lemma {:induction false} RunNeverPutsOff(c: Config, s: State, es: seq<Event>)
    requires c.retry.maxAttempts <= 1 || c.retry.initial <= 0.0 || c.retry.ceiling <= 0.0
    requires IsRun(c, s, es) && NeverPutOff(s)
    ensures NeverPutOff(After(c, s, es))
    decreases |es|
  {
    if es != [] {
      if es[0].Settle? && c.retry.maxAttempts > 1 {
        DelayNeedsBoth(c.retry, s.pcs[es[0].w].job.attempts + 1);
      }
      RunNeverPutsOff(c, Next(c, s, es[0]), es[1..]);
    }
  }

  lemma DelayNeedsBoth(r: Retry, k: nat)
    requires k >= 1 && (r.initial <= 0.0 || r.ceiling <= 0.0)
    ensures Delay(k, r.initial, r.ceiling) <= 0.0
  {
  }

  /** This is so in every run if and only if no two workers serve one CDN, or nothing is ever put off: jobs
      are tried once, or the delays are none. */
  lemma RecoveryIsImmediateExactly(c: Config)
    ensures (forall t, es :: IsRun(c, Init(c, t), es) ==>
              |After(c, Init(c, t), es).pcs| == |c.serves| && RecoversAtOnce(c, After(c, Init(c, t), es)))
       <==> OnePerCdn(c) || c.retry.maxAttempts <= 1 || c.retry.initial <= 0.0 || c.retry.ceiling <= 0.0
  {
    if OnePerCdn(c) || c.retry.maxAttempts <= 1 || c.retry.initial <= 0.0 || c.retry.ceiling <= 0.0 {
      forall t, es | IsRun(c, Init(c, t), es)
        ensures |After(c, Init(c, t), es).pcs| == |c.serves| && RecoversAtOnce(c, After(c, Init(c, t), es))
      {
        RecoveredIsReady(c, t, es);
      }
    } else {
      var v, w :| 0 <= v < w < |c.serves| && c.serves[v] == c.serves[w];
      PutOffInFlight(c, v, w);
    }
  }

  lemma RecoveredIsReady(c: Config, t: real, es: seq<Event>)
    requires OnePerCdn(c) || c.retry.maxAttempts <= 1 || c.retry.initial <= 0.0 || c.retry.ceiling <= 0.0
    requires IsRun(c, Init(c, t), es)
    ensures |After(c, Init(c, t), es).pcs| == |c.serves| && RecoversAtOnce(c, After(c, Init(c, t), es))
  {
    var s := After(c, Init(c, t), es);
    InitInv(c, t);
    RunKeepsInv(c, Init(c, t), es);
    if OnePerCdn(c) {
      RunKeepsDue(c, Init(c, t), es);
      forall id | id in s.table.rows ensures RowDue(c.retry, s, id) {
      }
    } else {
      RunNeverPutsOff(c, Init(c, t), es);
    }
  }

  /** With a stale copy a job that was put off is in flight before it is due. */
  lemma PutOffInFlight(c: Config, v: nat, w: nat)
    requires v < |c.serves| && w < |c.serves| && v != w && c.serves[v] == c.serves[w]
    requires c.retry.maxAttempts >= 2 && c.retry.initial > 0.0 && c.retry.ceiling > 0.0
    ensures exists es :: IsRun(c, Init(c, 0.0), es) && |After(c, Init(c, 0.0), es).pcs| == |c.serves|
                      && !RecoversAtOnce(c, After(c, Init(c, 0.0), es))
  {
    StaleWithTwoWorkers(c, v, w, [], "");
    var es := BothRead(c, v, w, []) + [Update(w), Return(w, Raised("")), Settle(w), Update(v)];
    var s := After(c, Init(c, 0.0), es);
    assert Delay(1, c.retry.initial, c.retry.ceiling) > 0.0 by {
      assert Pow2(0) == 1;
    }
    assert s.table.rows[1].status == InFlight && !Ready(Next(c, s, Crash).table, s.table.rows[1].cdn, s.now, 1);
  }

  // ---------------------------------------------------------------- provider calls

  function Max(a: int, b: int): int {
    if a < b then b else a
  }

  function CallsFor(calls: seq<Call>, id: nat): nat {
    if calls == [] then 0 else CallsFor(calls[..|calls| - 1], id) + if calls[|calls| - 1].id == id then 1 else 0
  }

  predicate CallUnderWay(s: State, w: nat, id: nat) {
    w < |s.pcs| && s.pcs[w].Calling? && s.pcs[w].job.id == id
  }

  /** Every provider call, finished or under way, has a claim of its own. */
  ghost predicate CallsClaimed(s: State, id: nat) {
    && CallsFor(s.calls, id) <= |ClaimsOf(s, id)|
    && ((exists w :: CallUnderWay(s, w, id)) ==> CallsFor(s.calls, id) < |ClaimsOf(s, id)|)
  }

  lemma ReturnKeepsCallsClaimed(c: Config, s: State, w: nat, o: Outcome, id: nat)
    requires Inv(c, s) && Enabled(s, Return(w, o)) && CallsClaimed(s, id)
    ensures CallsClaimed(Next(c, s, Return(w, o)), id)
  {
    var t := Next(c, s, Return(w, o));
    assert t.calls[..|s.calls|] == s.calls;
    if s.pcs[w].job.id == id {
      assert CallUnderWay(s, w, id);
      forall v: nat ensures !CallUnderWay(t, v, id) {
        OnlyCaller(c, s, w, v);
      }
    } else if v: nat :| CallUnderWay(t, v, id) {
      assert CallUnderWay(s, v, id);
    }
  }

  lemma OnlyCaller(c: Config, s: State, w: nat, v: nat)
    requires Inv(c, s) && w < |s.pcs| && s.pcs[w].Calling?
    ensures CallUnderWay(s, v, s.pcs[w].job.id) ==> v == w
  {
    if v < w {
      assert !SameJob(s.pcs[v], s.pcs[w]);
    } else if w < v < |s.pcs| {
      assert !SameJob(s.pcs[w], s.pcs[v]);
    }
  }

  lemma CallsClaimedStep(c: Config, s: State, e: Event, id: nat)
    requires Inv(c, s) && Enabled(s, e) && CallsClaimed(s, id)
    ensures CallsClaimed(Next(c, s, e), id)
  {
    var t := Next(c, s, e);
    if e.Return? {
      ReturnKeepsCallsClaimed(c, s, e.w, e.outcome, id);
    } else if v: nat :| CallUnderWay(t, v, id) {
      assert (e.Update? && e.w == v) || CallUnderWay(s, v, id);
    }
  }

  lemma {:induction false} RunKeepsCallsClaimed(c: Config, s: State, es: seq<Event>, id: nat)
    requires Inv(c, s) && IsRun(c, s, es) && CallsClaimed(s, id)
    ensures CallsClaimed(After(c, s, es), id)
    decreases |es|
  {
    if es != [] {
      StepKeepsInv(c, s, es[0]);
      CallsClaimedStep(c, s, es[0], id);
      RunKeepsCallsClaimed(c, Next(c, s, es[0]), es[1..], id);
    }
  }

  /** The provider is called for a job at most `max_attempts` times, at least once counted, plus once
      for every crash that found the job in flight; a failed job was refused for good or had all its
      attempts. */
  lemma ProviderCallBound(c: Config, t: real, es: seq<Event>, id: nat)
    requires OnePerCdn(c) && IsRun(c, Init(c, t), es)
    ensures var s := After(c, Init(c, t), es);
      && CallsFor(s.calls, id) <= |ClaimsOf(s, id)| <= Max(1, c.retry.maxAttempts) + s.interrupted[id]
      && ((exists w :: CallUnderWay(s, w, id)) ==>
            CallsFor(s.calls, id) < Max(1, c.retry.maxAttempts) + s.interrupted[id])
      && (Finished(s.table, id) ==> |ClaimsOf(s, id)| == s.table.rows[id].attempts + 1 + s.interrupted[id])
      && (id in s.table.rows ==> WhyFailed(c.retry, s, id))
  {
    Reachable(c, t, es);
    InitInv(c, t);
    RunKeepsCallsClaimed(c, Init(c, t), es, id);
    var s := After(c, Init(c, t), es);
    if id in s.table.rows {
      assert RowAccounted(c.retry, s, id) && WhyFailed(c.retry, s, id);
    }
  }

  /** Without a crash the k-th claim is the k-th attempt, and the claims of a job are apart by the
      backoff of the failure between them; with crashes a claim may repeat the attempt. */
  lemma ClaimsAreSpaced(c: Config, t: real, es: seq<Event>, id: nat, k: nat)
    requires OnePerCdn(c) && IsRun(c, Init(c, t), es)
    requires 1 <= k < |ClaimsOf(After(c, Init(c, t), es), id)|
    ensures var s := After(c, Init(c, t), es);
      var claims := ClaimsOf(s, id);
      && Follows(c.retry, claims[k - 1], claims[k])
      && (s.interrupted[id] == 0 ==>
            claims[k].attempt == k + 1 && claims[k].at >= claims[k - 1].at + Delay(k, c.retry.initial, c.retry.ceiling))
  {
    Reachable(c, t, es);
    var s := After(c, Init(c, t), es);
    assert id in s.table.rows;
    assert RowAccounted(c.retry, s, id);
    assert FollowsAt(c.retry, ClaimsOf(s, id), k);
  }
}
