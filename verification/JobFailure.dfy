/** internal/jobs: exactly when a job ends failed. The sweep never fails a row,
    however often its workers crashed: only a worker's own report does. */
module JobFailure {
  import opened Text
  import opened JobModel
  import opened JobRuns

  /** A report, on a row that is running, of an error that is permanent or comes
      from a claim at or past the maximum. The row may have been claimed again since. */
  ghost predicate Fatal(st: State, step: Step, id: nat) {
    && step.Report? && Enabled(st, step) && st.holds[step.h].job == id
    && id in st.rows && st.rows[id].status == Running
    && match step.outcome {
         case Succeeded => false
         case Broke => st.holds[step.h].attempts >= st.holds[step.h].max
         case BrokePermanently | NoHandler => true
       }
  }

  /** One step fails a row if and only if it is such a report. */
  lemma {:induction false} FailsIff(st: State, step: Step, id: nat)
    requires id in st.rows && st.rows[id].status != Failed
    ensures id in Next(st, step).rows
    ensures Next(st, step).rows[id].status == Failed <==> Fatal(st, step, id)
  {
    hide NextBackoff;
  }

  /** A failed row stays as it is until it is reset. */
  lemma {:induction false} FailedStays(st: State, step: Step, id: nat)
    requires id in st.rows && st.rows[id].status == Failed
    ensures id in Next(st, step).rows
    ensures Next(st, step).rows[id].status == Failed <==> step != Restart(id)
  {
    hide NextBackoff;
  }

  ghost predicate FatalAt(st: State, steps: seq<Step>, id: nat, i: nat)
    requires i < |steps|
  {
    Fatal(Run(st, steps[..i]), steps[i], id) && forall j | i < j < |steps| :: steps[j] != Restart(id)
  }

  /** Over any run: a row ends failed if and only if some report failed it and no
      reset came after. So a row whose workers all crash is never failed,
      whatever its attempts. */
  lemma {:induction false} EndsFailedIff(st: State, steps: seq<Step>, id: nat)
    requires id in st.rows && st.rows[id].status != Failed
    ensures id in Run(st, steps).rows
    ensures Run(st, steps).rows[id].status == Failed <==> exists i :: 0 <= i < |steps| && FatalAt(st, steps, id, i)
  {
    hide Next, Fatal;
    if steps != [] {
      var n := |steps| - 1;
      var init := steps[..n];
      var before := Run(st, init);
      EndsFailedIff(st, init, id);
      assert FatalAt(st, steps, id, n) <==> Fatal(before, steps[n], id);
      forall i | 0 <= i < n ensures FatalAt(st, steps, id, i) <==> FatalAt(st, init, id, i) && steps[n] != Restart(id) {
        assert steps[..i] == init[..i];
      }
      if before.rows[id].status == Failed {
        FailedStays(before, steps[n], id);
        NotFatal(before, steps[n], id);
      } else {
        FailsIff(before, steps[n], id);
      }
    }
  }

  lemma NotFatal(st: State, step: Step, id: nat)
    requires id in st.rows && st.rows[id].status == Failed
    ensures !Fatal(st, step, id)
  {
  }
}
