/** The queue workers of `daemon.py` on the job table, as a transition system: any number of
    workers interleaving between SELECT and UPDATE, provider calls with any outcome, crashes with
    restart, and time. */
module Workers {
  import opened Prelude
  import opened JobQueue

  datatype Retry = Retry(maxAttempts: int, initial: real, ceiling: real)

  /** Worker w serves the CDN serves[w]; the daemon starts one worker per CDN. */
  datatype Config = Config(retry: Retry, serves: seq<string>)

  datatype Result = Result(ok: bool, retryable: bool, message: string)
  datatype Outcome = Returned(result: Result) | Raised(error: string)

  /** Between the awaits of `_queue_worker`: asleep or polling, after the SELECT, during the provider
      call, and with the result in hand but not yet recorded. */
  datatype Pc = Idle | Selected(job: Job) | Calling(job: Job) | Settling(job: Job, result: Result)

  datatype Call = Call(id: nat, urls: seq<string>, result: Result)
  datatype ClaimRecord = ClaimRecord(at: real, attempt: nat)
  datatype Deferral = Deferral(at: real, until: real)

  /** `calls`, `claims`, `deferrals` and `interrupted` are history: finished provider calls; for each job the
      times it was claimed, the failures recorded with the time from which it is due again, and how
      often a crash found it in flight. */
  datatype State = State(table: Table, now: real, pcs: seq<Pc>, calls: seq<Call>,
                         claims: map<nat, seq<ClaimRecord>>, deferrals: map<nat, seq<Deferral>>,
                         interrupted: multiset<nat>)

  datatype Event =
    | Enqueue(cdn: string, urls: seq<string>)
    | Select(w: nat)
    | Update(w: nat)
    | Return(w: nat, outcome: Outcome)
    | Settle(w: nat)
    | Crash
    | Tick(to: real)

  predicate OnePerCdn(c: Config) {
    forall v, w :: 0 <= v < w < |c.serves| ==> c.serves[v] != c.serves[w]
  }

  function Init(c: Config, t: real): State {
    State(EMPTY, t, seq(|c.serves|, _ => Idle), [], map[], map[], multiset{})
  }

  function AsResult(o: Outcome): Result {
    match o
    case Returned(r) => r
    case Raised(error) => Result(false, true, "provider raised: " + error)
  }

  /** What the worker does with the result of its call. */
  function Record(r: Retry, t: Table, job: Job, result: Result, now: real): Table {
    var attempt := job.attempts + 1;
    if result.ok then MarkDone(t, job.id)
    else if result.retryable && attempt < r.maxAttempts then
      Reschedule(t, job.id, attempt, now + Delay(attempt, r.initial, r.ceiling))
    else MarkFailed(t, job.id, result.message)
  }

  predicate Enabled(s: State, e: Event) {
    match e
    case Enqueue(_, _) => true
    case Select(w) => w < |s.pcs| && s.pcs[w].Idle?
    case Update(w) => w < |s.pcs| && s.pcs[w].Selected?
    case Return(w, _) => w < |s.pcs| && s.pcs[w].Calling?
    case Settle(w) => w < |s.pcs| && s.pcs[w].Settling?
    case Crash => true
    case Tick(to) => s.now <= to
  }

  function Next(c: Config, s: State, e: Event): State
    requires Enabled(s, e) && |s.pcs| == |c.serves|
  {
    match e
    case Enqueue(cdn, urls) =>
      s.(table := Insert(s.table, cdn, urls, s.now), claims := s.claims[s.table.lastId + 1 := []])
    case Select(w) =>
      var least := LeastReady(s.table, c.serves[w], s.now, 0);
      if least.None? then s else s.(pcs := s.pcs[w := Selected(Snapshot(s.table, least.value))])
    case Update(w) =>
      var job := s.pcs[w].job;
      if !Claimable(s.table, job.id) then s.(pcs := s.pcs[w := Idle])
      else s.(table := Claim(s.table, job.id), pcs := s.pcs[w := Calling(job)],
              claims := s.claims[job.id := ClaimsOf(s, job.id) + [ClaimRecord(s.now, job.attempts + 1)]])
    case Return(w, outcome) =>
      var job, result := s.pcs[w].job, AsResult(outcome);
      s.(pcs := s.pcs[w := Settling(job, result)], calls := s.calls + [Call(job.id, job.urls, result)])
    case Settle(w) =>
      var t := Record(c.retry, s.table, s.pcs[w].job, s.pcs[w].result, s.now);
      s.(table := t, pcs := s.pcs[w := Idle], deferrals := Deferred(s, t, s.pcs[w].job.id))
    case Crash =>
      s.(table := ResetInFlight(s.table), pcs := seq(|s.pcs|, _ => Idle),
         interrupted := s.interrupted + multiset(WithStatus(s.table, InFlight)))
    case Tick(to) => s.(now := to)
  }

  /** A job that comes out of a worker's hands pending has been deferred. */
  function Deferred(s: State, t: Table, id: nat): map<nat, seq<Deferral>> {
    if Claimable(t, id) then
      s.deferrals[id := DeferralsOf(s, id) + [Deferral(s.now, t.rows[id].nextAttemptAt)]]
    else s.deferrals
  }

  function DeferralsOf(s: State, id: nat): seq<Deferral> {
    if id in s.deferrals then s.deferrals[id] else []
  }

  function ClaimsOf(s: State, id: nat): seq<ClaimRecord> {
    if id in s.claims then s.claims[id] else []
  }

  ghost predicate IsRun(c: Config, s: State, es: seq<Event>)
    decreases |es|
  {
    |s.pcs| == |c.serves| && (es == [] || (Enabled(s, es[0]) && IsRun(c, Next(c, s, es[0]), es[1..])))
  }

  ghost function After(c: Config, s: State, es: seq<Event>): State
    requires IsRun(c, s, es)
    decreases |es|
  {
    if es == [] then s else After(c, Next(c, s, es[0]), es[1..])
  }

  lemma {:induction false} RunExtends(c: Config, s: State, es: seq<Event>, e: Event)
    requires IsRun(c, s, es) && Enabled(After(c, s, es), e)
    ensures |After(c, s, es).pcs| == |c.serves|
    ensures IsRun(c, s, es + [e]) && After(c, s, es + [e]) == Next(c, After(c, s, es), e)
    decreases |es|
  {
    if es == [] {
      assert (es + [e])[1..] == [];
    } else {
      assert (es + [e])[1..] == es[1..] + [e];
      RunExtends(c, Next(c, s, es[0]), es[1..], e);
    }
  }

  // ---------------------------------------------------------------- one round of the loop

  /** What a row becomes in one round: done after an ok; pending, with one attempt more and put off from the
      time of the outcome by initial * 2^(attempts so far), at most the ceiling, after a refusal that
      may be retried or an exception; failed, with the reason, after any other or the last attempt. */
  predicate Outcomes(r: Retry, was: Row, outcome: Outcome, at: real, row: Row) {
    var retry := (outcome.Raised? || outcome.result.retryable) && was.attempts + 1 < r.maxAttempts;
    var backoff := r.initial * Pow2(was.attempts) as real;
    && row.cdn == was.cdn && row.urls == was.urls && row.createdAt == was.createdAt
    && if outcome.Returned? && outcome.result.ok then
         row.status == Done && row.attempts == was.attempts && row.message == was.message
         && row.nextAttemptAt == was.nextAttemptAt
       else if retry then
         row.status == Pending && row.attempts == was.attempts + 1 && row.message == was.message
         && (row.nextAttemptAt == at + backoff <= at + r.ceiling || row.nextAttemptAt == at + r.ceiling <= at + backoff)
       else
         row.status == Failed && row.attempts == was.attempts && row.nextAttemptAt == was.nextAttemptAt
         && row.message == Some(if outcome.Raised? then "provider raised: " + outcome.error else outcome.result.message)
  }

  /** One round of `_queue_worker` without interruption: claim, call, record. */
  method WorkerRound(queue: PersistentQueue, cdn: string, provider: seq<string> -> Outcome, r: Retry,
                     claimedAt: real, settledAt: real) returns (job: Option<Job>)
    requires queue.Valid()
    modifies queue
    ensures queue.Valid()
    ensures job == var least := LeastReady(old(queue.Contents()), cdn, claimedAt, 0);
      if least.None? then None else Some(Snapshot(old(queue.Contents()), least.value))
    ensures queue.Contents() ==
      if job.None? then old(queue.Contents())
      else
        Record(r, Claim(old(queue.Contents()), job.value.id), job.value, AsResult(provider(job.value.urls)), settledAt)
    ensures job.Some? ==>
      && AsRead(job.value, old(queue.rows), cdn, claimedAt)
      && SameBut(old(queue.rows), queue.rows, job.value.id) && job.value.id in queue.rows
      && Outcomes(r, old(queue.rows)[job.value.id], provider(job.value.urls), settledAt, queue.rows[job.value.id])
  {
    job := queue.ClaimReady(cdn, claimedAt);
    if job.None? {
      return;
    }
    var attempt := job.value.attempts + 1;
    var outcome := provider(job.value.urls);
    var result := match outcome
      case Returned(res) => res
      case Raised(error) => Result(false, true, "provider raised: " + error);
    if result.ok {
      queue.SetDone(job.value.id);
    } else if result.retryable && attempt < r.maxAttempts {
      var backoff := ExponentialBackoff(attempt, r.initial, r.ceiling);
      queue.SetRescheduled(job.value.id, attempt, settledAt + backoff.value);
    } else {
      queue.SetFailed(job.value.id, result.message);
    }
  }

  // ---------------------------------------------------------------- any number of workers

  predicate Holding(pc: Pc) {
    pc.Calling? || pc.Settling?
  }

  predicate Holds(s: State, w: nat, id: nat) {
    w < |s.pcs| && Holding(s.pcs[w]) && s.pcs[w].job.id == id
  }

  /** A worker of this CDN is in step with the table and the calls. */
  ghost predicate PcFits(t: Table, calls: seq<Call>, cdn: string, pc: Pc) {
    !pc.Idle? ==>
      && pc.job.id in t.rows && pc.job.cdn == t.rows[pc.job.id].cdn == cdn
      && pc.job.urls == t.rows[pc.job.id].urls
      && (Holding(pc) ==> t.rows[pc.job.id].status == InFlight)
      && (pc.Settling? ==> Call(pc.job.id, pc.job.urls, pc.result) in calls)
  }

  ghost predicate PcOk(c: Config, s: State, w: nat)
    requires w < |s.pcs| == |c.serves|
  {
    PcFits(s.table, s.calls, c.serves[w], s.pcs[w])
  }

  /** A finished row is backed by a finished provider call on exactly its URLs. */
  ghost predicate RowOk(s: State, id: nat)
    requires id in s.table.rows
  {
    var row := s.table.rows[id];
    && (row.status == InFlight ==> exists w :: Holds(s, w, id))
    && (row.status == Done ==> exists k :: 0 <= k < |s.calls| && Purged(s.calls[k], id, row.urls))
    && (row.status == Failed ==> exists k :: 0 <= k < |s.calls| && GaveUp(s.calls[k], id, row))
  }

  predicate Purged(call: Call, id: nat, urls: seq<string>) {
    call.id == id && call.urls == urls && call.result.ok
  }

  predicate GaveUp(call: Call, id: nat, row: Row) {
    call.id == id && call.urls == row.urls && !call.result.ok && row.message == Some(call.result.message)
  }

  ghost predicate Inv(c: Config, s: State) {
    && |s.pcs| == |c.serves| && WellFormed(s.table) && s.claims.Keys == s.table.rows.Keys
    && (forall id :: id in s.interrupted ==> id in s.table.rows)
    && (forall w {:trigger PcOk(c, s, w)} :: 0 <= w < |s.pcs| ==> PcOk(c, s, w))
    && (forall v, w {:trigger SameJob(s.pcs[v], s.pcs[w])} :: 0 <= v < w < |s.pcs| ==> !SameJob(s.pcs[v], s.pcs[w]))
    && (forall id {:trigger RowOk(s, id)} :: id in s.table.rows ==> RowOk(s, id))
  }

  predicate SameJob(p: Pc, q: Pc) {
    Holding(p) && Holding(q) && p.job.id == q.job.id
  }

  lemma CallsSurvive(s: State, t: State, id: nat)
    requires id in s.table.rows && id in t.table.rows && RowOk(s, id) && s.calls <= t.calls
    requires t.table.rows[id] == s.table.rows[id]
    requires s.table.rows[id].status == InFlight ==> exists w :: Holds(t, w, id)
    ensures RowOk(t, id)
  {
  }

  /** A step that changes no row in the table and no holder. */
  lemma QuietStep(c: Config, s: State, t: State)
    requires Inv(c, s) && |t.pcs| == |s.pcs| && s.calls <= t.calls && t.interrupted == s.interrupted
    requires WellFormed(t.table) && t.claims.Keys == t.table.rows.Keys && s.table.lastId <= t.table.lastId
    requires forall id :: id in s.table.rows ==> id in t.table.rows && t.table.rows[id] == s.table.rows[id]
    requires forall id :: id in t.table.rows && id !in s.table.rows ==> t.table.rows[id].status == Pending
    requires forall w :: 0 <= w < |s.pcs| ==> SameHolder(s.pcs[w], t.pcs[w])
    requires forall w :: 0 <= w < |s.pcs| && t.pcs[w] != s.pcs[w] ==> PcOk(c, t, w)
    ensures Inv(c, t) && KeepsPurges(s.table, t.table)
  {
    forall w | 0 <= w < |t.pcs| ensures PcOk(c, t, w) {
      assert PcOk(c, s, w) && SameHolder(s.pcs[w], t.pcs[w]);
    }
    forall v, w | 0 <= v < w < |t.pcs| ensures !SameJob(t.pcs[v], t.pcs[w]) {
      assert SameHolder(s.pcs[v], t.pcs[v]) && SameHolder(s.pcs[w], t.pcs[w]) && !SameJob(s.pcs[v], s.pcs[w]);
    }
    forall id | id in t.table.rows ensures RowOk(t, id) {
      if id in s.table.rows {
        if w: nat :| Holds(s, w, id) {
          assert SameHolder(s.pcs[w], t.pcs[w]) && Holds(t, w, id);
        }
        assert RowOk(s, id);
        CallsSurvive(s, t, id);
      }
    }
  }

  predicate SameHolder(p: Pc, q: Pc) {
    Holding(p) == Holding(q) && (Holding(p) ==> p.job == q.job)
  }

  lemma EnqueueKeepsInv(c: Config, s: State, cdn: string, urls: seq<string>)
    requires Inv(c, s)
    ensures Inv(c, Next(c, s, Enqueue(cdn, urls))) && KeepsPurges(s.table, Next(c, s, Enqueue(cdn, urls)).table)
  {
    QuietStep(c, s, Next(c, s, Enqueue(cdn, urls)));
  }

  lemma SelectKeepsInv(c: Config, s: State, w: nat)
    requires Inv(c, s) && Enabled(s, Select(w))
    ensures Inv(c, Next(c, s, Select(w))) && KeepsPurges(s.table, Next(c, s, Select(w)).table)
  {
    QuietStep(c, s, Next(c, s, Select(w)));
  }

  lemma ReturnKeepsInv(c: Config, s: State, w: nat, o: Outcome)
    requires Inv(c, s) && Enabled(s, Return(w, o))
    ensures Inv(c, Next(c, s, Return(w, o))) && KeepsPurges(s.table, Next(c, s, Return(w, o)).table)
  {
    assert PcOk(c, s, w);
    QuietStep(c, s, Next(c, s, Return(w, o)));
  }

  lemma StepKeepsInv(c: Config, s: State, e: Event)
    requires Inv(c, s) && Enabled(s, e)
    ensures Inv(c, Next(c, s, e)) && KeepsPurges(s.table, Next(c, s, e).table)
  {
    match e
    case Enqueue(cdn, urls) => EnqueueKeepsInv(c, s, cdn, urls);
    case Select(w) => SelectKeepsInv(c, s, w);
    case Update(w) => UpdateKeepsInv(c, s, w);
    case Return(w, o) => ReturnKeepsInv(c, s, w, o);
    case Settle(w) => SettleKeepsInv(c, s, w);
    case Crash => CrashKeepsInv(c, s);
    case Tick(_) => QuietStep(c, s, Next(c, s, e));
  }

  lemma CrashKeepsInv(c: Config, s: State)
    requires Inv(c, s)
    ensures Inv(c, Next(c, s, Crash)) && KeepsPurges(s.table, Next(c, s, Crash).table)
  {
    AllIdle(c, s, Next(c, s, Crash));
  }

  /** Nobody works, every row is back to pending unless it was finished. */
  lemma AllIdle(c: Config, s: State, t: State)
    requires Inv(c, s) && |t.pcs| == |s.pcs| && forall w :: 0 <= w < |t.pcs| ==> t.pcs[w] == Idle
    requires t.calls == s.calls && t.claims == s.claims && t.table.lastId == s.table.lastId
    requires t.table.rows.Keys == s.table.rows.Keys
    requires forall id :: id in s.table.rows ==> t.table.rows[id] == Reset(s.table.rows[id])
    requires forall id :: id in t.interrupted ==> id in s.table.rows
    ensures Inv(c, t) && KeepsPurges(s.table, t.table)
  {
    forall id | id in s.table.rows ensures RowOk(t, id) && SamePurge(s.table, t.table, id) {
      assert RowOk(s, id);
      if s.table.rows[id].status != InFlight {
        CallsSurvive(s, t, id);
      }
    }
  }

  lemma UpdateKeepsInv(c: Config, s: State, w: nat)
    requires Inv(c, s) && Enabled(s, Update(w))
    ensures Inv(c, Next(c, s, Update(w))) && KeepsPurges(s.table, Next(c, s, Update(w)).table)
  {
    var t, job := Next(c, s, Update(w)), s.pcs[w].job;
    assert PcOk(c, s, w);
    if !Claimable(s.table, job.id) {
      QuietStep(c, s, t);
      return;
    }
    OtherRowsOk(c, s, t, w, job.id);
    assert Holds(t, w, job.id) && RowOk(t, job.id);
  }

  lemma SettleKeepsInv(c: Config, s: State, w: nat)
    requires Inv(c, s) && Enabled(s, Settle(w))
    ensures Inv(c, Next(c, s, Settle(w))) && KeepsPurges(s.table, Next(c, s, Settle(w)).table)
  {
    var t, job, result := Next(c, s, Settle(w)), s.pcs[w].job, s.pcs[w].result;
    assert PcOk(c, s, w);
    OtherRowsOk(c, s, t, w, job.id);
    var k :| 0 <= k < |s.calls| && s.calls[k] == Call(job.id, job.urls, result);
    assert result.ok ==> Purged(t.calls[k], job.id, t.table.rows[job.id].urls);
    assert !result.ok ==> t.table.rows[job.id].status == Failed ==> GaveUp(t.calls[k], job.id, t.table.rows[job.id]);
    assert RowOk(t, job.id);
  }

  /** A step of worker w that changes only the row of the job it holds before or after: everybody
      else is undisturbed. */
  lemma OtherRowsOk(c: Config, s: State, t: State, w: nat, id: nat)
    requires Inv(c, s) && w < |s.pcs| && |t.pcs| == |s.pcs| && t.pcs == s.pcs[w := t.pcs[w]]
    requires t.calls == s.calls && id in s.table.rows && t.table.lastId == s.table.lastId
    requires t.table.rows.Keys == s.table.rows.Keys && SamePurge(s.table, t.table, id)
    requires forall i :: i in s.table.rows && i != id ==> t.table.rows[i] == s.table.rows[i]
    requires Holding(s.pcs[w]) ==> s.pcs[w].job.id == id
    requires Holding(t.pcs[w]) ==> t.pcs[w].job.id == id
    requires Holding(s.pcs[w]) || s.table.rows[id].status != InFlight
    ensures forall i :: i in s.table.rows && i != id ==> RowOk(t, i)
    ensures forall v :: 0 <= v < |s.pcs| && v != w ==> PcOk(c, t, v) && !SameJob(t.pcs[v], t.pcs[w])
    ensures KeepsPurges(s.table, t.table) && WellFormed(t.table)
  {
    forall i | i in s.table.rows && i != id ensures RowOk(t, i) {
      assert RowOk(s, i);
      if v: nat :| Holds(s, v, i) {
        assert v != w && Holds(t, v, i);
      }
      CallsSurvive(s, t, i);
    }
    forall v | 0 <= v < |s.pcs| && v != w ensures PcOk(c, t, v) && !SameJob(t.pcs[v], t.pcs[w]) {
      assert PcOk(c, s, v) && if v < w then !SameJob(s.pcs[v], s.pcs[w]) else !SameJob(s.pcs[w], s.pcs[v]);
    }
  }

  lemma {:induction false} RunKeepsInv(c: Config, s: State, es: seq<Event>)
    requires Inv(c, s) && IsRun(c, s, es)
    ensures Inv(c, After(c, s, es)) && KeepsPurges(s.table, After(c, s, es).table)
    decreases |es|
  {
    if es != [] {
      StepKeepsInv(c, s, es[0]);
      var mid := Next(c, s, es[0]);
      RunKeepsInv(c, mid, es[1..]);
      forall id | id in s.table.rows ensures SamePurge(s.table, After(c, s, es).table, id) {
        assert SamePurge(s.table, mid.table, id) && SamePurge(mid.table, After(c, s, es).table, id);
      }
    }
  }

  lemma InitInv(c: Config, t: real)
    ensures Inv(c, Init(c, t))
  {
  }

  /** With any number of workers, also several on one CDN: a job never has two holders, and a row
      is in flight exactly while somebody holds it. */
  lemma ClaimsAreExclusive(c: Config, t: real, es: seq<Event>, id: nat)
    requires IsRun(c, Init(c, t), es)
    ensures var s := After(c, Init(c, t), es);
      && (forall v, w :: Holds(s, v, id) && Holds(s, w, id) ==> v == w)
      && ((exists w :: Holds(s, w, id)) <==> id in s.table.rows && s.table.rows[id].status == InFlight)
  {
    InitInv(c, t);
    RunKeepsInv(c, Init(c, t), es);
    var s := After(c, Init(c, t), es);
    forall v: nat, w: nat | Holds(s, v, id) && Holds(s, w, id) ensures v == w {
      assert SameJob(s.pcs[v], s.pcs[w]) && SameJob(s.pcs[w], s.pcs[v]);
    }
    if w: nat :| Holds(s, w, id) {
      assert PcOk(c, s, w);
    }
    if id in s.table.rows {
      assert RowOk(s, id);
    }
  }

  /** A row is done only after the provider answered ok for exactly the URLs it was enqueued with. */
  lemma DoneMeansPurged(c: Config, t: real, es: seq<Event>, id: nat)
    requires IsRun(c, Init(c, t), es)
    ensures var s := After(c, Init(c, t), es);
      id in s.table.rows && s.table.rows[id].status == Done ==>
        exists k :: 0 <= k < |s.calls| && Purged(s.calls[k], id, s.table.rows[id].urls)
  {
    InitInv(c, t);
    RunKeepsInv(c, Init(c, t), es);
    var s := After(c, Init(c, t), es);
    if id in s.table.rows {
      assert RowOk(s, id);
    }
  }

  predicate Finished(t: Table, id: nat) {
    id in t.rows && (t.rows[id].status == Done || t.rows[id].status == Failed)
  }

  /** The statements have no guard on the status, the protocol never needs one: a finished row never
      changes again, whatever follows. */
  lemma {:induction false} FinishedRowsStay(c: Config, s: State, es: seq<Event>, id: nat)
    requires Inv(c, s) && IsRun(c, s, es) && Finished(s.table, id)
    ensures id in After(c, s, es).table.rows && After(c, s, es).table.rows[id] == s.table.rows[id]
    decreases |es|
  {
    if es != [] {
      var e := es[0];
      if (e.Update? || e.Settle?) {
        assert PcOk(c, s, e.w);
      }
      assert Next(c, s, e).table.rows[id] == s.table.rows[id];
      StepKeepsInv(c, s, e);
      FinishedRowsStay(c, Next(c, s, e), es[1..], id);
    }
  }
}
