/** internal/jobs: what takes a row to each of its states, and over runs exactly
    when a job ends completed. */
module JobOutcome {
  import opened Text
  import opened JobModel
  import opened JobRuns

  /** A worker's report of success, on a row that is running. The row may have been claimed again since. */
  ghost predicate Success(st: State, step: Step, id: nat) {
    && step.Report? && step.outcome == Succeeded && step.h < |st.holds| && st.holds[step.h].phase == Working
    && st.holds[step.h].job == id && id in st.rows && st.rows[id].status == Running
  }

  /** One step completes a row if and only if it is such a report; then the lock
      is gone and nothing else about this row or any other has changed. */
  lemma {:induction false} CompletesIff(st: State, step: Step, id: nat)
    requires id in st.rows && st.rows[id].status != Completed
    ensures id in Next(st, step).rows
    ensures Next(st, step).rows[id].status == Completed <==> Success(st, step, id)
    ensures Success(st, step, id) ==>
              (var before, after := st.rows[id], Next(st, step).rows[id];
              && after.lockedBy == None && after.lockedUntil == None && after.attempts == before.attempts
              && after.maxAttempts == before.maxAttempts && after.runAfter == before.runAfter
              && after.queue == before.queue && after.kind == before.kind
              && Next(st, step).rows.Keys == st.rows.Keys
              && forall x | x in st.rows && x != id :: Next(st, step).rows[x] == st.rows[x])
  {
    hide NextBackoff;
  }

  lemma {:induction false} CompletedStays(st: State, step: Step, id: nat)
    requires id in st.rows && st.rows[id].status == Completed
    ensures id in Next(st, step).rows && Next(st, step).rows[id] == st.rows[id]
  {
    hide NextBackoff;
  }

  ghost predicate SuccessAt(st: State, steps: seq<Step>, id: nat, i: nat)
    requires i < |steps|
  {
    Success(Run(st, steps[..i]), steps[i], id)
  }

  /** Over any run: a row ends completed if and only if some worker reported
      success on it while it was running. */
  lemma {:induction false} EndsCompletedIff(st: State, steps: seq<Step>, id: nat)
    requires id in st.rows && st.rows[id].status != Completed
    ensures id in Run(st, steps).rows
    ensures Run(st, steps).rows[id].status == Completed <==> exists i :: 0 <= i < |steps| && SuccessAt(st, steps, id, i)
  {
    hide Next, Success;
    if steps != [] {
      var n := |steps| - 1;
      var init := steps[..n];
      var before := Run(st, init);
      EndsCompletedIff(st, init, id);
      assert SuccessAt(st, steps, id, n) <==> Success(before, steps[n], id);
      forall i | 0 <= i < n ensures SuccessAt(st, steps, id, i) <==> SuccessAt(st, init, id, i) {
        assert steps[..i] == init[..i];
      }
      if before.rows[id].status == Completed {
        CompletedStays(before, steps[n], id);
      } else {
        CompletesIff(before, steps[n], id);
      }
    }
  }

  /** One step starts a row running if and only if it is a claim of that row
      while it is due; then one attempt more is counted, and the lease runs from now. */
  lemma {:induction false} StartsIff(st: State, step: Step, id: nat)
    requires id in st.rows && st.rows[id].status != Running
    ensures Next(st, step).rows[id].status == Running <==>
            step.Take? && step.id == id && st.rows[id].status == Pending && st.rows[id].runAfter <= st.now
    ensures Next(st, step).rows[id].status == Running ==>
              (var before, after := st.rows[id], Next(st, step).rows[id];
              && after.attempts == before.attempts + 1 && after.lockedBy == Some(step.worker)
              && after.lockedUntil == Some(st.now + if step.ttl > 0 then step.ttl else 300)
              && after.maxAttempts == before.maxAttempts && after.queue == before.queue && after.kind == before.kind)
  {
    hide NextBackoff;
  }

  /** One step cancels a row if and only if it is a cancellation of it while it is pending or running. */
  lemma {:induction false} CancelsIff(st: State, step: Step, id: nat)
    requires id in st.rows && st.rows[id].status != Cancelled
    ensures Next(st, step).rows[id].status == Cancelled <==>
            step == Abort(id) && (st.rows[id].status == Pending || st.rows[id].status == Running)
    ensures Next(st, step).rows[id].status == Cancelled ==>
              Next(st, step).rows[id].lockedBy == None && Next(st, step).rows[id].attempts == st.rows[id].attempts
  {
    hide NextBackoff;
  }

  /** One step brings a row back to pending if and only if it is a sweep after
      its lease, an error reported below the maximum, or a reset of a failed or
      cancelled row; only the reset gives it its attempts back. */
  lemma {:induction false} ReturnsIff(st: State, step: Step, id: nat)
    requires id in st.rows && st.rows[id].status != Pending
    ensures Next(st, step).rows[id].status == Pending <==>
            || (step.Sweep? && st.rows[id].status == Running && st.rows[id].lockedUntil.Some?
                && st.rows[id].lockedUntil.value < st.now)
            || (step.Report? && step.h < |st.holds| && st.holds[step.h].phase == Working && st.holds[step.h].job == id
                && st.rows[id].status == Running && step.outcome == Broke
                && st.holds[step.h].attempts < st.holds[step.h].max)
            || (step == Restart(id) && (st.rows[id].status == Failed || st.rows[id].status == Cancelled))
    ensures Next(st, step).rows[id].status == Pending ==>
              (var before, after := st.rows[id], Next(st, step).rows[id];
              && after.lockedBy == None && (step.Sweep? ==> after.runAfter == before.runAfter)
              && after.attempts == (if step.Restart? then 0 else before.attempts)
              && (step.Restart? ==> after.runAfter == st.now)
              && (step.Report? ==> after.runAfter == st.now + NextBackoff(st.holds[step.h].attempts)))
  {
    hide NextBackoff;
  }

  /** A row's sweeps are counted one by one: the sweeps that found it running
      after its lease, and nothing else. */
  lemma {:induction false} SweepCounts(st: State, step: Step, id: nat)
    requires id in st.rows
    ensures Sweeps(Next(st, step), id) == Sweeps(st, id) +
            if step.Sweep? && st.rows[id].status == Running && st.rows[id].lockedUntil.Some?
               && st.rows[id].lockedUntil.value < st.now
            then 1 else 0
  {
    hide NextBackoff;
  }
}
