/** internal/jobs/store.go: the job rows and the statements on them. Times are seconds. */
module JobModel {
  import opened Text

  datatype Status = Pending | Running | Completed | Failed | Cancelled

  datatype Job = Job(
    queue: string, kind: string, status: Status, attempts: nat, maxAttempts: int, runAfter: int,
    lockedBy: Option<string>, lockedUntil: Option<int>)

  type Rows = map<nat, Job>

  const MINUTE := 60
  const HOUR := 3600
  const BACKOFF := 30

  function Doubled(n: nat): nat { if n == 0 then 1 else 2 * Doubled(n - 1) }

  /** The delay before the next attempt. */
  function NextBackoff(attempts: int): int {
    var a := if attempts < 1 then 1 else attempts;
    if a > 12 then HOUR
    else
      var d := BACKOFF * Doubled(a - 1);
      if d > HOUR then HOUR else d
  }

  /** Doubling from thirty seconds, never beyond an hour, whatever the attempt. */
  lemma {:induction false} BackoffDoubles(attempts: int)
    ensures attempts >= 1 ==>
              NextBackoff(attempts) ==
              if BACKOFF * Doubled(attempts - 1) > HOUR then HOUR else BACKOFF * Doubled(attempts - 1)
    ensures 30 <= NextBackoff(attempts) <= NextBackoff(attempts + 1) <= 3600
    ensures (attempts <= 1 ==> NextBackoff(attempts) == 30) && (attempts >= 8 ==> NextBackoff(attempts) == 3600)
  {
    if attempts >= 1 { DoubledGrows(attempts - 1); }
    if attempts >= 12 { AtLeast2048(attempts - 1); }
    assert Doubled(5) == 32 && Doubled(7) == 4 * Doubled(5);
    if attempts >= 8 { AtLeast128(attempts - 1); }
  }

  lemma {:induction false} DoubledGrows(n: nat)
    ensures 1 <= Doubled(n) <= Doubled(n + 1)
  {
    if n > 0 { DoubledGrows(n - 1); }
  }

  lemma {:induction false} AtLeast128(n: nat)
    requires n >= 7
    ensures Doubled(n) >= 128
  {
    if n > 7 { AtLeast128(n - 1); } else { assert Doubled(5) == 32 && Doubled(7) == 4 * Doubled(5); }
  }

  lemma {:induction false} AtLeast2048(n: nat)
    requires n >= 11
    ensures Doubled(n) >= 2048
  {
    if n > 11 { AtLeast2048(n - 1); } else { assert Doubled(5) == 32 && Doubled(11) == 64 * Doubled(5); }
  }

  function Enqueued(rows: Rows, id: nat, queue: string, kind: string, max: int, runAfter: int): Rows {
    if kind == "" || id in rows then rows
    else
      rows[id := Job(
        if queue == "" then "default" else queue, kind, Pending, 0, if max <= 0 then 5 else max, runAfter, None, None)]
  }

  /** A new row can be claimed from its own queue once its time has come, has its
      whole budget before it, and leaves the other rows alone. */
  lemma NewRowIsDue(rows: Rows, id: nat, queue: string, kind: string, max: int, runAfter: int, q: string, now: int)
    requires kind != "" && id !in rows
    ensures var next := Enqueued(rows, id, queue, kind, max, runAfter);
            && id in next
            && (Due(next[id], q, now) <==> q == (if queue == "" then "default" else queue) && runAfter <= now)
            && next[id].attempts == 0 < next[id].maxAttempts && !Stuck(next[id], now)
            && (max > 0 ==> next[id].maxAttempts == max) && next - {id} == rows
  {
  }

  predicate Due(j: Job, queue: string, now: int) { j.status == Pending && j.queue == queue && j.runAfter <= now }

  const LOCK_TTL := 5 * MINUTE

  function Lease(now: int, ttl: int): int { now + if ttl <= 0 then LOCK_TTL else ttl }

  function Claimed(j: Job, worker: string, until: int): Job {
    j.(status := Running, attempts := j.attempts + 1, lockedBy := Some(worker), lockedUntil := Some(until))
  }

  function Finished(j: Job, status: Status): Job { j.(status := status, lockedBy := None, lockedUntil := None) }

  function Complete(rows: Rows, id: nat): Rows {
    if id in rows && rows[id].status == Running then rows[id := Finished(rows[id], Completed)] else rows
  }

  /** A failed attempt: back to pending while the reported number is below the reported maximum. */
  function Fail(rows: Rows, id: nat, attempts: int, max: int, now: int): Rows {
    if id !in rows || rows[id].status != Running then rows
    else if attempts >= max then rows[id := Finished(rows[id], Failed)]
    else rows[id := Finished(rows[id], Pending).(runAfter := now + NextBackoff(attempts))]
  }

  predicate Stuck(j: Job, now: int) { j.status == Running && j.lockedUntil.Some? && j.lockedUntil.value < now }

  function Recovered(j: Job, now: int): Job { if Stuck(j, now) then Finished(j, Pending) else j }

  function Recover(rows: Rows, now: int): Rows { map id | id in rows :: Recovered(rows[id], now) }

  function Cancel(rows: Rows, id: nat): Rows {
    if id in rows && (rows[id].status == Pending || rows[id].status == Running)
    then rows[id := Finished(rows[id], Cancelled)] else rows
  }

  function Reset(rows: Rows, id: nat, now: int): Rows {
    if id in rows && (rows[id].status == Failed || rows[id].status == Cancelled)
    then rows[id := Finished(rows[id], Pending).(attempts := 0, runAfter := now)] else rows
  }

  /** What a handler did with a job. */
  datatype Outcome = Succeeded | Broke | BrokePermanently | NoHandler

  /** What the worker then records, with the attempt numbers of its own claim. */
  function Recorded(rows: Rows, id: nat, attempts: int, max: int, outcome: Outcome, now: int): Rows {
    match outcome
    case Succeeded => Complete(rows, id)
    case Broke => Fail(rows, id, attempts, max, now)
    case BrokePermanently | NoHandler => Fail(rows, id, max, max, now)
  }
}
