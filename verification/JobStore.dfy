/** internal/jobs/store.go and runner.go: the store and one worker's handling of a job. */
module JobStore {
  import opened Text
  import M = JobModel

  class Store {
    var rows: M.Rows
    var now: int

    /** Adds a pending row with the defaults filled in; the other rows stay as they are. */
    method Enqueue(id: nat, queue: string, kind: string, max: int, runAfter: Option<int>, delay: int) returns (ok: bool)
      requires id !in rows
      modifies this`rows
      ensures ok <==> kind != ""
      ensures !ok ==> rows == old(rows)
      ensures ok ==> rows.Keys == old(rows).Keys + {id} && forall x | x in old(rows) :: rows[x] == old(rows)[x]
      ensures ok ==>
                (var j := rows[id];
                && j.status == M.Pending && j.attempts == 0 && j.lockedBy == None && j.lockedUntil == None
                && j.kind == kind && (queue != "" ==> j.queue == queue) && (queue == "" ==> j.queue == "default")
                && j.maxAttempts > 0 && (max > 0 ==> j.maxAttempts == max) && (max <= 0 ==> j.maxAttempts == 5)
                && (delay <= 0 && runAfter.Some? ==> j.runAfter == runAfter.value)
                && (delay <= 0 && runAfter == None ==> j.runAfter == now)
                && (delay > 0 ==> j.runAfter == delay + if runAfter == None then now else runAfter.value))
      ensures rows == M.Enqueued(
                old(rows), id, queue, kind, max,
                (if runAfter == None then now else runAfter.value) + if delay > 0 then delay else 0)
    {
      if kind == "" {
        return false;
      }
      var q, m := queue, max;
      if q == "" {
        q := "default";
      }
      if m <= 0 {
        m := 5;
      }
      var at := if runAfter == None then now else runAfter.value;
      if delay > 0 {
        at := at + delay;
      }
      rows := rows[id := M.Job(q, kind, M.Pending, 0, m, at, None, None)];
      ok := true;
    }

    /** Takes the due job that has waited longest, if any is due. */
    method Claim(queue: string, worker: string, ttl: int) returns (claimed: Option<(nat, M.Job)>)
      requires worker != ""
      modifies this`rows
      ensures claimed == None ==> rows == old(rows) && forall id | id in rows :: !M.Due(rows[id], queue, now)
      ensures claimed.Some? ==>
                (var (id, j) := claimed.value;
                 && id in old(rows) && M.Due(old(rows)[id], queue, now)
                 && (forall x | x in old(rows) && M.Due(old(rows)[x], queue, now) ::
                       old(rows)[id].runAfter <= old(rows)[x].runAfter)
                 && j == M.Claimed(old(rows)[id], worker, M.Lease(now, ttl)) && rows == old(rows)[id := j])
    {
      var best: Option<nat> := None;
      var rest := rows.Keys;
      while rest != {}
        invariant rest <= rows.Keys
        invariant best.Some? ==> best.value in rows && M.Due(rows[best.value], queue, now)
        invariant forall x | x in rows.Keys - rest && M.Due(rows[x], queue, now) ::
            best.Some? && rows[best.value].runAfter <= rows[x].runAfter
      {
        var x :| x in rest;
        if M.Due(rows[x], queue, now) && (best == None || rows[x].runAfter < rows[best.value].runAfter) {
          best := Some(x);
        }
        rest := rest - {x};
      }
      if best == None {
        return None;
      }
      var j := M.Claimed(rows[best.value], worker, M.Lease(now, ttl));
      rows := rows[best.value := j];
      claimed := Some((best.value, j));
    }

    method Complete(id: nat)
      modifies this`rows
      ensures rows == M.Complete(old(rows), id)
    {
      if id in rows && rows[id].status == M.Running {
        rows := rows[id := M.Finished(rows[id], M.Completed)];
      }
    }

    method Fail(id: nat, attempts: int, max: int)
      modifies this`rows
      ensures rows == M.Fail(old(rows), id, attempts, max, now)
    {
      if id !in rows || rows[id].status != M.Running {
        return;
      }
      if attempts >= max {
        rows := rows[id := M.Finished(rows[id], M.Failed)];
        return;
      }
      var backoff := M.NextBackoff(attempts);
      rows := rows[id := M.Finished(rows[id], M.Pending).(runAfter := now + backoff)];
    }

    /** The sweep: counts the rows it frees. */
    method Recover() returns (n: nat)
      modifies this`rows
      ensures rows == M.Recover(old(rows), now)
      ensures n == |set id | id in old(rows) && M.Stuck(old(rows)[id], now)|
    {
      var rest, was := rows.Keys, rows;
      ghost var freed: set<nat> := {};
      n := 0;
      while rest != {}
        invariant rest <= was.Keys == rows.Keys
        invariant forall id | id in was :: rows[id] == if id in rest then was[id] else M.Recovered(was[id], now)
        invariant freed == (set id | id in was && id !in rest && M.Stuck(was[id], now)) && n == |freed|
      {
        var id :| id in rest;
        rest := rest - {id};
        if M.Stuck(rows[id], now) {
          freed := freed + {id};
          rows := rows[id := M.Recovered(rows[id], now)];
          n := n + 1;
        }
      }
      assert freed == set id | id in was && M.Stuck(was[id], now);
    }

    method Cancel(id: nat) returns (done: bool)
      modifies this`rows
      ensures rows == M.Cancel(old(rows), id) && (done <==> rows != old(rows))
    {
      done := id in rows && (rows[id].status == M.Pending || rows[id].status == M.Running);
      if done {
        rows := rows[id := M.Finished(rows[id], M.Cancelled)];
        assert rows[id] != old(rows)[id];
      }
    }

    method Reset(id: nat) returns (done: bool)
      modifies this`rows
      ensures rows == M.Reset(old(rows), id, now) && (done <==> rows != old(rows))
    {
      done := id in rows && (rows[id].status == M.Failed || rows[id].status == M.Cancelled);
      if done {
        rows := M.Reset(rows, id, now);
        assert rows[id] != old(rows)[id];
      }
    }

    /** `process`: records what the handler did, under the numbers of the claim. */
    method Process(id: nat, j: M.Job, outcome: M.Outcome)
      modifies this`rows
      ensures rows == M.Recorded(old(rows), id, j.attempts, j.maxAttempts, outcome, now)
    {
      if outcome == M.NoHandler {
        Fail(id, j.maxAttempts, j.maxAttempts);
      } else if outcome == M.Succeeded {
        Complete(id);
      } else if outcome == M.BrokePermanently {
        Fail(id, j.maxAttempts, j.maxAttempts);
      } else {
        Fail(id, j.attempts, j.maxAttempts);
      }
    }
  }
}
