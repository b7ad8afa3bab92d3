/** internal/jobs: whole runs of the queue, with workers that crash, that report
    late, and that report with the attempt number of their own old claim. */
module JobRuns {
  import opened Text
  import opened JobModel

  datatype Phase = Working | Reported | Crashed

  /** What a worker knows of the job it claimed. */
  datatype Hold = Hold(job: nat, attempts: nat, max: int, until: int, phase: Phase)

  /** `sweeps` counts, for each row, how often the sweep freed it. */
  datatype State = State(rows: Rows, now: int, holds: seq<Hold>, sweeps: map<nat, nat>)

  const EMPTY := State(map[], 0, [], map[])

  datatype Step =
    | Submit(id: nat, queue: string, kind: string, max: int, runAfter: int)
    | Take(id: nat, worker: string, ttl: int)
    | Report(h: nat, outcome: Outcome)
    | Crash(h: nat)
    | Sweep
    | Abort(id: nat)
    | Restart(id: nat)
    | Tick(d: nat)

  function Sweeps(st: State, id: nat): nat { if id in st.sweeps then st.sweeps[id] else 0 }

  predicate Enabled(st: State, step: Step) {
    match step
    case Take(id, _, _) => id in st.rows && Due(st.rows[id], st.rows[id].queue, st.now)
    case Report(h, _) => h < |st.holds| && st.holds[h].phase == Working
    case Crash(h) => h < |st.holds| && st.holds[h].phase == Working
    case _ => true
  }

  function Next(st: State, step: Step): State {
    if !Enabled(st, step) then st
    else
      match step
      case Submit(id, queue, kind, max, runAfter) => st.(rows := Enqueued(st.rows, id, queue, kind, max, runAfter))
      case Take(id, worker, ttl) =>
        var j := Claimed(st.rows[id], worker, Lease(st.now, ttl));
        st.(rows := st.rows[id := j],
            holds := st.holds + [Hold(id, j.attempts, j.maxAttempts, Lease(st.now, ttl), Working)])
      case Report(h, outcome) =>
        var hold := st.holds[h];
        st.(rows := Recorded(st.rows, hold.job, hold.attempts, hold.max, outcome, st.now),
            holds := st.holds[h := hold.(phase := Reported)])
      case Crash(h) => st.(holds := st.holds[h := st.holds[h].(phase := Crashed)])
      case Sweep =>
        st.(rows := Recover(st.rows, st.now),
            sweeps := map id | id in st.rows :: Sweeps(st, id) + if Stuck(st.rows[id], st.now) then 1 else 0)
      case Abort(id) => st.(rows := Cancel(st.rows, id))
      case Restart(id) => st.(rows := Reset(st.rows, id, st.now))
      case Tick(d) => st.(now := st.now + d)
  }

  function Run(st: State, steps: seq<Step>): State {
    if steps == [] then st else Next(Run(st, steps[..|steps| - 1]), steps[|steps| - 1])
  }

  lemma RunNone()
    ensures Run(EMPTY, []) == EMPTY
  {
  }

  lemma RunOne(steps: seq<Step>, step: Step)
    ensures Run(EMPTY, steps + [step]) == Next(Run(EMPTY, steps), step)
  {
    assert (steps + [step])[..|steps|] == steps;
  }

  // The attempt bound

  /** The attempt numbers below the maximum that have been reported for a row. */
  ghost function Spent(st: State, id: nat): set<nat> {
    set h | 0 <= h < |st.holds| && st.holds[h].job == id && st.holds[h].phase == Reported
            && st.holds[h].attempts < st.holds[h].max :: st.holds[h].attempts
  }

  /** A hold carries one of its row's attempt numbers, no two holds of a row the same. */
  ghost predicate Numbered(st: State) {
    && (forall h | 0 <= h < |st.holds| ::
          && st.holds[h].job in st.rows && 1 <= st.holds[h].attempts <= st.rows[st.holds[h].job].attempts
          && st.holds[h].max == st.rows[st.holds[h].job].maxAttempts)
    && forall g, h | 0 <= g < h < |st.holds| && st.holds[g].job == st.holds[h].job ::
         st.holds[g].attempts != st.holds[h].attempts
  }

  /** Every return to pending was paid for by a sweep or by a number not reported before. */
  ghost predicate Paid(st: State, id: nat)
    requires id in st.rows
  {
    var j := st.rows[id];
    j.maxAttempts >= 1 && j.attempts <= Sweeps(st, id) + |Spent(st, id)| + if j.status == Pending then 0 else 1
  }

  ghost predicate Accounted(st: State) { Numbered(st) && forall id | id in st.rows :: Paid(st, id) }

  lemma {:induction false} SubsetCount(s: set<nat>, n: nat)
    requires forall x | x in s :: 1 <= x < n
    ensures |s| <= if n == 0 then 0 else n - 1
    decreases n
  {
    if n > 1 {
      SubsetCount(s - {n - 1}, n - 1);
    } else {
      assert s == {};
    }
  }

  lemma {:induction false} SpentStays(st: State, next: State, id: nat)
    requires next.holds == st.holds
    ensures Spent(next, id) == Spent(st, id)
  {
  }

  lemma {:induction false} ReportSpends(st: State, h: nat, id: nat)
    requires h < |st.holds| && st.holds[h].phase == Working && Numbered(st)
    ensures var next := st.(holds := st.holds[h := st.holds[h].(phase := Reported)]);
            var hold := st.holds[h];
            Spent(next, id) ==
            Spent(st, id) + if hold.job == id && hold.attempts < hold.max then {hold.attempts} else {}
    ensures st.holds[h].job == id ==> st.holds[h].attempts !in Spent(st, id)
  {
    var next := st.(holds := st.holds[h := st.holds[h].(phase := Reported)]);
    forall x | x in Spent(st, id) ensures x in Spent(next, id) {
      var g :| 0 <= g < |st.holds| && st.holds[g].job == id && st.holds[g].phase == Reported
          && st.holds[g].attempts < st.holds[g].max && st.holds[g].attempts == x;
      assert next.holds[g] == st.holds[g];
    }
    var own := st.holds[h].job == id && st.holds[h].attempts < st.holds[h].max;
    forall x | x in Spent(next, id) ensures x in Spent(st, id) || (own && x == st.holds[h].attempts) {
      var g :| 0 <= g < |next.holds| && next.holds[g].job == id && next.holds[g].phase == Reported
          && next.holds[g].attempts < next.holds[g].max && next.holds[g].attempts == x;
      if g != h { assert next.holds[g] == st.holds[g]; }
    }
    if st.holds[h].job == id && st.holds[h].attempts < st.holds[h].max {
      assert next.holds[h].phase == Reported;
      assert st.holds[h].attempts in Spent(next, id);
    }
  }

  lemma {:induction false} TakeSpends(st: State, hold: Hold, id: nat)
    requires hold.phase == Working
    ensures Spent(st.(holds := st.holds + [hold]), id) == Spent(st, id)
  {
    var next := st.(holds := st.holds + [hold]);
    forall x | x in Spent(st, id) ensures x in Spent(next, id) {
      var g :| 0 <= g < |st.holds| && st.holds[g].job == id && st.holds[g].phase == Reported
          && st.holds[g].attempts < st.holds[g].max && st.holds[g].attempts == x;
      assert next.holds[g] == st.holds[g];
    }
  }

  lemma {:induction false} CrashSpends(st: State, h: nat, id: nat)
    requires h < |st.holds| && st.holds[h].phase == Working
    ensures Spent(st.(holds := st.holds[h := st.holds[h].(phase := Crashed)]), id) == Spent(st, id)
  {
    var next := st.(holds := st.holds[h := st.holds[h].(phase := Crashed)]);
    forall x | x in Spent(st, id) ensures x in Spent(next, id) {
      var g :| 0 <= g < |st.holds| && st.holds[g].job == id && st.holds[g].phase == Reported
          && st.holds[g].attempts < st.holds[g].max && st.holds[g].attempts == x;
      assert next.holds[g] == st.holds[g];
    }
  }

  lemma {:induction false} StepNumbers(st: State, step: Step)
    requires Numbered(st) && !step.Restart?
    ensures Numbered(Next(st, step))
  {
    hide NextBackoff;
  }

  lemma {:induction false} ReportPays(st: State, h: nat, outcome: Outcome, id: nat)
    requires Numbered(st) && id in st.rows && Paid(st, id) && h < |st.holds| && st.holds[h].phase == Working
    ensures id in Next(st, Report(h, outcome)).rows && Paid(Next(st, Report(h, outcome)), id)
  {
    hide Spent, NextBackoff;
    var next := Next(st, Report(h, outcome));
    ReportSpends(st, h, id);
    SpentStays(st.(holds := next.holds), next, id);
  }

  /** Returning to pending through a report costs a number not spent before. */
  lemma {:induction false} StepPays(st: State, step: Step, id: nat)
    requires Numbered(st) && (id in st.rows ==> Paid(st, id)) && !step.Restart? && id in Next(st, step).rows
    ensures Paid(Next(st, step), id)
  {
    hide Spent, NextBackoff;
    var next := Next(st, step);
    if Enabled(st, step) {
      match step
      case Submit(_, _, _, _, _) => SpentStays(st, next, id);
      case Take(_, _, _) => TakeSpends(st, next.holds[|st.holds|], id); SpentStays(st.(holds := next.holds), next, id);
      case Report(h, outcome) => ReportPays(st, h, outcome, id);
      case Crash(h) => CrashSpends(st, h, id);
      case _ => SpentStays(st, next, id);
    }
  }

  lemma {:induction false} StepAccounts(st: State, step: Step)
    requires Accounted(st) && !step.Restart?
    ensures Accounted(Next(st, step))
  {
    hide Numbered, Paid, Next;
    StepNumbers(st, step);
    forall id | id in Next(st, step).rows ensures Paid(Next(st, step), id) { StepPays(st, step, id); }
  }

  lemma {:induction false} RunAccounts(steps: seq<Step>)
    requires forall s | s in steps :: !s.Restart?
    ensures Accounted(Run(EMPTY, steps))
  {
    hide Accounted, Next;
    if steps == [] {
      assert Accounted(EMPTY) by { EmptyIsAccounted(); }
    } else {
      RunAccounts(steps[..|steps| - 1]);
      StepAccounts(Run(EMPTY, steps[..|steps| - 1]), steps[|steps| - 1]);
    }
  }

  lemma EmptyIsAccounted()
    ensures Accounted(EMPTY)
  {
  }

  /** In every run without a reset, a row's attempts never exceed its maximum
      plus the number of times the sweep freed it, late reports or not. */
  lemma {:induction false} AttemptBound(steps: seq<Step>, id: nat)
    requires forall s | s in steps :: !s.Restart?
    ensures var st := Run(EMPTY, steps);
            id in st.rows ==> st.rows[id].attempts <= st.rows[id].maxAttempts + Sweeps(st, id)
  {
    hide Run;
    RunAccounts(steps);
    var st := Run(EMPTY, steps);
    if id in st.rows {
      assert Paid(st, id);
      forall x | x in Spent(st, id) ensures 1 <= x < st.rows[id].maxAttempts {
        var h :| 0 <= h < |st.holds| && st.holds[h].job == id && st.holds[h].attempts == x
            && st.holds[h].attempts < st.holds[h].max;
      }
      SubsetCount(Spent(st, id), st.rows[id].maxAttempts);
    }
  }
}
