/** internal/jobs: one worker per job, as long as leases are kept. */
module JobLease {
  import opened Text
  import opened JobModel
  import opened JobRuns

  ghost predicate Idle(st: State, id: nat) {
    forall h | 0 <= h < |st.holds| && st.holds[h].phase == Working :: st.holds[h].job != id
  }

  /** Time does not pass the lease of a worker that is still at it, and no
      cancelled row is reset while a worker is. */
  ghost predicate Timely(st: State, step: Step) {
    match step
    case Tick(d) => forall h | 0 <= h < |st.holds| && st.holds[h].phase == Working :: st.now + d <= st.holds[h].until
    case Restart(id) => Idle(st, id) || !(id in st.rows && st.rows[id].status == Cancelled)
    case _ => true
  }

  ghost predicate TimelyRun(st: State, steps: seq<Step>) {
    steps == [] || (TimelyRun(st, steps[..|steps| - 1]) && Timely(Run(st, steps[..|steps| - 1]), steps[|steps| - 1]))
  }

  /** A worker still at it owns its row, or the row was cancelled under it. */
  ghost predicate Owns(st: State, h: nat)
    requires h < |st.holds|
  {
    var hold := st.holds[h];
    && hold.job in st.rows && st.now <= hold.until
    && (st.rows[hold.job].status == Cancelled ||
        (st.rows[hold.job].status == Running && st.rows[hold.job].lockedUntil == Some(hold.until)))
  }

  ghost predicate Leased(st: State) {
    && (forall h | 0 <= h < |st.holds| && st.holds[h].phase == Working :: Owns(st, h))
    && forall g, h | 0 <= g < h < |st.holds| && st.holds[g].phase == Working && st.holds[h].phase == Working ::
         st.holds[g].job != st.holds[h].job
  }

  /** A step keeps every lease exactly when it is timely. */
  lemma {:induction false} LeasedIff(st: State, step: Step)
    requires Leased(st)
    ensures Leased(Next(st, step)) <==> Timely(st, step)
  {
    hide NextBackoff;
    if Timely(st, step) { StepLeases(st, step); } else { StepBreaks(st, step); }
  }

  lemma {:induction false} StepLeases(st: State, step: Step)
    requires Leased(st) && Timely(st, step)
    ensures Leased(Next(st, step))
  {
    hide NextBackoff;
    var next := Next(st, step);
    forall h | 0 <= h < |next.holds| && next.holds[h].phase == Working ensures Owns(next, h) {
      if h < |st.holds| { assert Owns(st, h); }
    }
    if step.Take? && Enabled(st, step) {
      forall h | 0 <= h < |st.holds| && st.holds[h].phase == Working ensures st.holds[h].job != step.id {
        assert Owns(st, h);
      }
    }
  }

  lemma {:induction false} StepBreaks(st: State, step: Step)
    requires Leased(st) && !Timely(st, step)
    ensures !Leased(Next(st, step))
  {
    var next := Next(st, step);
    var h :| 0 <= h < |st.holds| && st.holds[h].phase == Working &&
      if step.Tick? then st.now + step.d > st.holds[h].until else st.holds[h].job == step.id;
    assert !Owns(next, h);
  }

  /** All along a run every lease is kept exactly when all its steps are timely. */
  lemma {:induction false} RunLeasedIff(steps: seq<Step>)
    ensures (forall i | 0 <= i <= |steps| :: Leased(Run(EMPTY, steps[..i]))) <==> TimelyRun(EMPTY, steps)
  {
    hide Leased, Next, Timely;
    if steps == [] {
      NothingLeased();
    } else {
      var n := |steps| - 1;
      var init := steps[..n];
      RunLeasedIff(init);
      assert steps[..n + 1] == steps;
      forall i | 0 <= i <= n ensures steps[..i] == init[..i] {}
      if forall i | 0 <= i <= n :: Leased(Run(EMPTY, steps[..i])) {
        assert Leased(Run(EMPTY, steps[..n]));
        LeasedIff(Run(EMPTY, init), steps[n]);
      }
      if !(forall i | 0 <= i <= n :: Leased(Run(EMPTY, init[..i]))) {
        var i :| 0 <= i <= n && !Leased(Run(EMPTY, init[..i]));
        assert !Leased(Run(EMPTY, steps[..i]));
      }
    }
  }

  lemma {:induction false} RunLeases(steps: seq<Step>)
    requires TimelyRun(EMPTY, steps)
    ensures Leased(Run(EMPTY, steps))
  {
    hide Leased, Run, TimelyRun;
    RunLeasedIff(steps);
    assert steps[..|steps|] == steps;
  }

  lemma NothingLeased()
    ensures Leased(EMPTY)
  {
  }

  /** In every timely run no job is ever run by two workers at once, and the
      sweep only frees rows that nobody is working on. */
  lemma {:induction false} OneWorkerPerJob(steps: seq<Step>, g: nat, h: nat, id: nat)
    requires TimelyRun(EMPTY, steps)
    ensures var st := Run(EMPTY, steps);
            && (g < |st.holds| && h < |st.holds| && g != h ==>
                st.holds[g].phase == Working && st.holds[h].phase == Working ==>
                st.holds[g].job != st.holds[h].job)
            && (id in st.rows && Stuck(st.rows[id], st.now) ==> Idle(st, id))
  {
    hide Run, TimelyRun;
    RunLeases(steps);
    var st := Run(EMPTY, steps);
    if id in st.rows && Stuck(st.rows[id], st.now) {
      forall k | 0 <= k < |st.holds| && st.holds[k].phase == Working ensures st.holds[k].job != id {
        assert Owns(st, k);
      }
    }
  }

  /** A completed row never changes again, in any run at all. */
  lemma {:induction false} CompletedIsFinal(st: State, steps: seq<Step>, id: nat)
    requires id in st.rows && st.rows[id].status == Completed
    ensures id in Run(st, steps).rows && Run(st, steps).rows[id] == st.rows[id]
  {
    if steps != [] {
      CompletedIsFinal(st, steps[..|steps| - 1], id);
    }
  }

  lemma TimelyOne(steps: seq<Step>, step: Step)
    ensures TimelyRun(EMPTY, steps + [step]) <==> TimelyRun(EMPTY, steps) && Timely(Run(EMPTY, steps), step)
  {
    assert (steps + [step])[..|steps|] == steps;
  }

  /** Cancelling and resetting a job under its worker lets a second one in. */
  lemma {:induction false} ResetLetsTwoIn(max: int, ttl: int)
    requires ttl >= 0
    ensures var steps := [Submit(0, "", "kind", max, 0), Take(0, "a", ttl), Abort(0), Restart(0), Take(0, "b", ttl)];
            var st := Run(EMPTY, steps);
            !TimelyRun(EMPTY, steps) && |st.holds| == 2 && st.holds[0].job == st.holds[1].job
            && st.holds[0].phase == Working && st.holds[1].phase == Working
  {
    hide Run, TimelyRun, Timely;
    var s1 := Next(EMPTY, Submit(0, "", "kind", max, 0));
    var s2 := Next(s1, Take(0, "a", ttl));
    var s3 := Next(s2, Abort(0));
    var s4 := Next(s3, Restart(0));
    assert !Timely(s3, Restart(0)) by { NotIdle(s3); }
    Chain5(Submit(0, "", "kind", max, 0), Take(0, "a", ttl), Abort(0), Restart(0), Take(0, "b", ttl));
  }

  lemma NotIdle(st: State)
    requires |st.holds| > 0 && st.holds[0].phase == Working && st.holds[0].job == 0
    requires 0 in st.rows && st.rows[0].status == Cancelled
    ensures !Timely(st, Restart(0))
  {
  }

  lemma Chain5(a: Step, b: Step, c: Step, d: Step, e: Step)
    ensures Run(EMPTY, [a, b, c, d, e]) == Next(Next(Next(Next(Next(EMPTY, a), b), c), d), e)
    ensures !Timely(Next(Next(Next(EMPTY, a), b), c), d) ==> !TimelyRun(EMPTY, [a, b, c, d, e])
    ensures !Timely(Next(Next(EMPTY, a), b), c) ==> !TimelyRun(EMPTY, [a, b, c, d, e])
  {
    hide Run, TimelyRun, Timely, Next;
    assert [a, b, c, d, e] == [] + [a] + [b] + [c] + [d] + [e];
    RunNone();
    RunOne([], a);
    RunOne([] + [a], b);
    RunOne([] + [a] + [b], c);
    RunOne([] + [a] + [b] + [c], d);
    RunOne([] + [a] + [b] + [c] + [d], e);
    TimelyOne([] + [a] + [b], c);
    TimelyOne([] + [a] + [b] + [c], d);
    TimelyOne([] + [a] + [b] + [c] + [d], e);
  }

  /** A worker that outlives its lease is no longer alone with the job. */
  lemma {:induction false} OverrunLetsTwoIn(max: int)
    ensures var steps := [Submit(0, "", "kind", max, 0), Take(0, "a", 1), Tick(2), Sweep, Take(0, "b", 1)];
            var st := Run(EMPTY, steps);
            !TimelyRun(EMPTY, steps) && |st.holds| == 2 && st.holds[0].job == st.holds[1].job
            && st.holds[0].phase == Working && st.holds[1].phase == Working
  {
    hide Run, TimelyRun, Timely;
    var s1 := Next(EMPTY, Submit(0, "", "kind", max, 0));
    var s2 := Next(s1, Take(0, "a", 1));
    var s3 := Next(s2, Tick(2));
    assert !Timely(s2, Tick(2)) by { Overdue(s2); }
    assert Stuck(s3.rows[0], s3.now);
    Chain5(Submit(0, "", "kind", max, 0), Take(0, "a", 1), Tick(2), Sweep, Take(0, "b", 1));
  }

  lemma Overdue(st: State)
    requires |st.holds| > 0 && st.holds[0].phase == Working && st.now + 2 > st.holds[0].until
    ensures !Timely(st, Tick(2))
  {
  }
}
