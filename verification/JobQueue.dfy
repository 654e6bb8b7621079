/** The durable job table of `queue.py`.  Each SQL statement with its commit is one atomic update. */
module JobQueue {
  import opened Prelude

  datatype Status = Pending | InFlight | Done | Failed

  datatype Row = Row(cdn: string, urls: seq<string>, attempts: nat, nextAttemptAt: real, createdAt: real,
                     status: Status, message: Option<string>)

  /** `AUTOINCREMENT`: ids are handed out in increasing order and never again. */
  datatype Table = Table(rows: map<nat, Row>, lastId: nat)

  /** The row a claim returns, as the SELECT saw it. */
  datatype Job = Job(id: nat, cdn: string, urls: seq<string>, attempts: nat, nextAttemptAt: real, createdAt: real)

  const EMPTY := Table(map[], 0)

  ghost predicate WellFormed(t: Table) {
    forall id :: id in t.rows ==> 1 <= id <= t.lastId
  }

  // ---------------------------------------------------------------- statements

  function Insert(t: Table, cdn: string, urls: seq<string>, now: real): Table {
    Table(t.rows[t.lastId + 1 := Row(cdn, urls, 0, now, now, Pending, None)], t.lastId + 1)
  }

  predicate Ready(t: Table, cdn: string, now: real, id: nat) {
    id in t.rows && t.rows[id].cdn == cdn && t.rows[id].status == Pending && t.rows[id].nextAttemptAt <= now
  }

  /** SELECT ... ORDER BY id LIMIT 1, from id `from` on. */
  function LeastReady(t: Table, cdn: string, now: real, from: nat): (r: Option<nat>)
    ensures r.Some? ==> Ready(t, cdn, now, r.value) && from <= r.value <= t.lastId
    ensures forall id :: from <= id <= t.lastId && Ready(t, cdn, now, id) ==> r.Some? && r.value <= id
    decreases t.lastId + 1 - from
  {
    if from > t.lastId then None
    else if Ready(t, cdn, now, from) then Some(from)
    else LeastReady(t, cdn, now, from + 1)
  }

  function Snapshot(t: Table, id: nat): Job
    requires id in t.rows
  {
    var r := t.rows[id];
    Job(id, r.cdn, r.urls, r.attempts, r.nextAttemptAt, r.createdAt)
  }

  /** The job is a row of the CDN, pending and due, as it stands. */
  predicate AsRead(job: Job, rows: map<nat, Row>, cdn: string, now: real) {
    && job.id in rows && rows[job.id].status == Pending && rows[job.id].nextAttemptAt <= now
    && rows[job.id].cdn == job.cdn == cdn && rows[job.id].urls == job.urls && rows[job.id].attempts == job.attempts
    && rows[job.id].nextAttemptAt == job.nextAttemptAt && rows[job.id].createdAt == job.createdAt
  }

  predicate Claimable(t: Table, id: nat) {
    id in t.rows && t.rows[id].status == Pending
  }

  /** UPDATE ... SET status = 'in_flight' WHERE id = ? AND status = 'pending' */
  function Claim(t: Table, id: nat): Table {
    if Claimable(t, id) then t.(rows := t.rows[id := t.rows[id].(status := InFlight)]) else t
  }

  function MarkDone(t: Table, id: nat): Table {
    if id in t.rows then t.(rows := t.rows[id := t.rows[id].(status := Done)]) else t
  }

  function Reschedule(t: Table, id: nat, attempts: nat, nextAttemptAt: real): Table {
    if id in t.rows then
      t.(rows := t.rows[id := t.rows[id].(status := Pending, attempts := attempts, nextAttemptAt := nextAttemptAt)])
    else t
  }

  function MarkFailed(t: Table, id: nat, message: string): Table {
    if id in t.rows then t.(rows := t.rows[id := t.rows[id].(status := Failed, message := Some(message))]) else t
  }

  function Reset(r: Row): Row {
    if r.status == InFlight then r.(status := Pending) else r
  }

  function ResetInFlight(t: Table): Table {
    t.(rows := map id | id in t.rows :: Reset(t.rows[id]))
  }

  function WithStatus(t: Table, status: Status): set<nat> {
    set id | id in t.rows && t.rows[id].status == status
  }

  /** Two tables of rows that differ at most in one row. */
  ghost predicate SameBut(was: map<nat, Row>, rows: map<nat, Row>, id: nat) {
    forall i :: i != id ==> (i in rows <==> i in was) && (i in was ==> rows[i] == was[i])
  }

  // ---------------------------------------------------------------- the class

  class PersistentQueue {
    var rows: map<nat, Row>
    var lastId: nat

    ghost predicate Valid()
      reads this
    {
      WellFormed(Contents())
    }

    ghost function Contents(): Table
      reads this
    {
      Table(rows, lastId)
    }

    /** `open` on a new database. */
    constructor ()
      ensures Valid() && Contents() == EMPTY
    {
      rows, lastId := map[], 0;
    }

    /** A new row under a new, largest id, due at once: a claim at this very time could have it. */
    method Enqueue(cdn: string, urls: seq<string>, now: real) returns (id: nat)
      requires Valid()
      modifies this
      ensures Valid() && Contents() == Insert(old(Contents()), cdn, urls, now)
      ensures id == lastId && id in rows && forall i :: i in old(rows) ==> i < id
      ensures SameBut(old(rows), rows, id)
      ensures var row := rows[id];
        && row.cdn == cdn && row.urls == urls && row.attempts == 0 && row.message == None
        && row.nextAttemptAt == row.createdAt == now
      ensures Ready(Contents(), cdn, now, id)
    {
      lastId := lastId + 1;
      rows := rows[lastId := Row(cdn, urls, 0, now, now, Pending, None)];
      id := lastId;
    }

    /** The first half of `claim_ready`. */
    method SelectReady(cdn: string, now: real) returns (job: Option<Job>)
      requires Valid()
      ensures job.None? <==> forall id :: !Ready(Contents(), cdn, now, id)
      ensures job.Some? ==> Ready(Contents(), cdn, now, job.value.id) && job.value == Snapshot(Contents(), job.value.id)
      ensures job.Some? ==> AsRead(job.value, rows, cdn, now)
      ensures forall id | id in rows && rows[id].cdn == cdn && rows[id].status == Pending
                          && rows[id].nextAttemptAt <= now :: job.Some? && job.value.id <= id
    {
      var least := LeastReady(Table(rows, lastId), cdn, now, 0);
      job := if least.None? then None else Some(Snapshot(Table(rows, lastId), least.value));
      forall id | id in rows && rows[id].cdn == cdn && rows[id].status == Pending && rows[id].nextAttemptAt <= now
        ensures job.Some? && job.value.id <= id
      {
        assert Ready(Table(rows, lastId), cdn, now, id);
      }
    }

    /** The second half: the conditional UPDATE and its `rowcount`. */
    method ClaimSelected(id: nat) returns (rowcount: nat)
      requires Valid()
      modifies this
      ensures Valid() && Contents() == Claim(old(Contents()), id) && SameBut(old(rows), rows, id)
      ensures rowcount == if id in old(rows) && old(rows)[id].status == Pending then 1 else 0
      ensures id in rows <==> id in old(rows)
      ensures id in rows ==> rows[id] == if rowcount == 1 then old(rows)[id].(status := InFlight) else old(rows)[id]
    {
      rowcount := 0;
      if id in rows && rows[id].status == Pending {
        rows := rows[id := rows[id].(status := InFlight)];
        rowcount := 1;
      }
    }

    /** `claim_ready` when no other claimer comes between its halves: it takes the least ready id. */
    method ClaimReady(cdn: string, now: real) returns (job: Option<Job>)
      requires Valid()
      modifies this
      ensures Valid()
      ensures job.None? ==> Contents() == old(Contents()) && forall id :: !Ready(old(Contents()), cdn, now, id)
      ensures job.Some? ==>
        && Ready(old(Contents()), cdn, now, job.value.id)
        && (forall id :: Ready(old(Contents()), cdn, now, id) ==> job.value.id <= id)
        && job.value == Snapshot(old(Contents()), job.value.id)
        && Contents() == Claim(old(Contents()), job.value.id)
      ensures job.Some? ==>
        && AsRead(job.value, old(rows), cdn, now) && SameBut(old(rows), rows, job.value.id)
        && job.value.id in rows && rows[job.value.id] == old(rows)[job.value.id].(status := InFlight)
    {
      job := SelectReady(cdn, now);
      if job.Some? {
        var rowcount := ClaimSelected(job.value.id);
        if rowcount == 0 {
          job := None;
        }
      }
    }

    method SetDone(id: nat)
      requires Valid()
      modifies this
      ensures Valid() && Contents() == MarkDone(old(Contents()), id) && lastId == old(lastId)
      ensures SameBut(old(rows), rows, id) && (id in rows <==> id in old(rows))
      ensures id in rows ==> rows[id] == old(rows)[id].(status := Done)
    {
      if id in rows {
        rows := rows[id := rows[id].(status := Done)];
      }
    }

    method SetRescheduled(id: nat, attempts: nat, nextAttemptAt: real)
      requires Valid()
      modifies this
      ensures Valid() && Contents() == Reschedule(old(Contents()), id, attempts, nextAttemptAt)
      ensures SameBut(old(rows), rows, id) && (id in rows <==> id in old(rows)) && lastId == old(lastId)
      ensures id in rows ==>
        rows[id] == old(rows)[id].(status := Pending, attempts := attempts, nextAttemptAt := nextAttemptAt)
    {
      if id in rows {
        rows := rows[id := rows[id].(status := Pending, attempts := attempts, nextAttemptAt := nextAttemptAt)];
      }
    }

    method SetFailed(id: nat, message: string)
      requires Valid()
      modifies this
      ensures Valid() && Contents() == MarkFailed(old(Contents()), id, message) && lastId == old(lastId)
      ensures SameBut(old(rows), rows, id) && (id in rows <==> id in old(rows))
      ensures id in rows ==> rows[id] == old(rows)[id].(status := Failed, message := Some(message))
    {
      if id in rows {
        rows := rows[id := rows[id].(status := Failed, message := Some(message))];
      }
    }

    /** The rows in flight are pending again, and nothing else about any row has changed. */
    method ResetAll() returns (moved: nat)
      requires Valid()
      modifies this
      ensures Valid() && Contents() == ResetInFlight(old(Contents())) && lastId == old(lastId)
      ensures rows.Keys == old(rows).Keys && moved == |set id | id in old(rows) && old(rows)[id].status == InFlight|
      ensures forall id :: id in rows ==>
        rows[id] == if old(rows)[id].status == InFlight then old(rows)[id].(status := Pending) else old(rows)[id]
    {
      moved := |WithStatus(Table(rows, lastId), InFlight)|;
      assert WithStatus(Contents(), InFlight) == set id | id in rows && rows[id].status == InFlight;
      rows := map id | id in rows :: Reset(rows[id]);
    }
  }

  /** No statement removes a row or changes what it purges and for whom. */
  ghost predicate KeepsPurges(t: Table, u: Table) {
    t.lastId <= u.lastId && forall id :: id in t.rows ==> SamePurge(t, u, id)
  }

  ghost predicate SamePurge(t: Table, u: Table, id: nat) {
    && id in t.rows && id in u.rows
    && u.rows[id].cdn == t.rows[id].cdn && u.rows[id].urls == t.rows[id].urls
  }

  // ---------------------------------------------------------------- backoff

  function Pow2(n: nat): (r: nat)
    ensures r >= 1
  {
    if n == 0 then 1 else 2 * Pow2(n - 1)
  }

  /** `min(initial * 2 ** (attempts - 1), ceiling)` */
  function Delay(attempts: nat, initial: real, ceiling: real): real
    requires attempts >= 1
  {
    var raw := initial * Pow2(attempts - 1) as real;
    if raw < ceiling then raw else ceiling
  }

  /** `exponential_backoff`; `None` stands for its `ValueError`. */
  function ExponentialBackoff(attempts: int, initial: real, ceiling: real): Option<real> {
    if attempts < 1 then None else Some(Delay(attempts, initial, ceiling))
  }

  lemma DelaysGrow(k: nat, initial: real, ceiling: real)
    requires k >= 1 && initial >= 0.0 && ceiling >= 0.0
    ensures Delay(1, initial, ceiling) == if initial < ceiling then initial else ceiling
    ensures 0.0 <= Delay(k, initial, ceiling) <= Delay(k + 1, initial, ceiling) <= ceiling
    ensures var twice := 2.0 * Delay(k, initial, ceiling);
      Delay(k + 1, initial, ceiling) == if twice < ceiling then twice else ceiling
  {
    var p := Pow2(k - 1) as real;
    assert Pow2(k) as real == 2.0 * p;
    assert initial * p >= 0.0;
    assert initial * (2.0 * p) == 2.0 * (initial * p);
    assert Pow2(1 - 1) == 1;
  }

  /** All the delays a job of n attempts is put off by: after the first failure to the last but one. */
  function TotalDelay(n: nat, initial: real, ceiling: real): real {
    if n <= 1 then 0.0 else TotalDelay(n - 1, initial, ceiling) + Delay(n - 1, initial, ceiling)
  }

  lemma {:induction false} TotalDelayBound(n: nat, initial: real, ceiling: real)
    requires n >= 1 && initial >= 0.0 && ceiling >= 0.0
    ensures TotalDelay(n, initial, ceiling) <= initial * (Pow2(n - 1) - 1) as real
    ensures TotalDelay(n, initial, ceiling) <= (n - 1) as real * ceiling
  {
    TotalDelayDoubles(n, initial, ceiling);
    TotalDelayCeiling(n, initial, ceiling);
  }

  lemma {:induction false} TotalDelayDoubles(n: nat, initial: real, ceiling: real)
    requires n >= 1 && initial >= 0.0
    ensures TotalDelay(n, initial, ceiling) <= initial * (Pow2(n - 1) - 1) as real
  {
    if n > 1 {
      TotalDelayDoubles(n - 1, initial, ceiling);
      var p := Pow2(n - 2) as real;
      Spread(initial, p);
      assert (Pow2(n - 1) - 1) as real == 2.0 * p - 1.0;
      assert Delay(n - 1, initial, ceiling) <= initial * p;
    }
  }

  lemma Spread(a: real, p: real)
    ensures a * (p - 1.0) + a * p == a * (2.0 * p - 1.0)
  {
    assert a * (p - 1.0) == a * p - a;
    assert a * (2.0 * p - 1.0) == a * (2.0 * p) - a;
  }

  lemma {:induction false} TotalDelayCeiling(n: nat, initial: real, ceiling: real)
    requires n >= 1
    ensures TotalDelay(n, initial, ceiling) <= (n - 1) as real * ceiling
  {
    if n > 1 {
      TotalDelayCeiling(n - 1, initial, ceiling);
      OneMore((n - 2) as real, ceiling);
      assert Delay(n - 1, initial, ceiling) <= ceiling;
    }
  }

  lemma OneMore(x: real, y: real)
    ensures (x + 1.0) * y == x * y + y
  {
  }
}
