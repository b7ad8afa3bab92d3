/** The attempt bound is exact: for every maximum and every number of sweeps some
    run reaches it. In particular a row whose workers all crash is offered again
    after every sweep, whatever its maximum. */
module JobTight {
  import opened Text
  import opened JobModel
  import opened JobRuns

  /** Row 0 as it stands after `a` claims, of which the first `done` have reported. */
  ghost predicate Stands(st: State, status: Status, max: nat, a: nat, done: nat, r: nat) {
    && 0 in st.rows && st.rows[0].status == status && st.rows[0].attempts == a && st.rows[0].maxAttempts == max
    && (status == Pending ==> st.rows[0].runAfter <= st.now) && Sweeps(st, 0) == r
    && |st.holds| == a
    && forall h | 0 <= h < a ::
         && st.holds[h].job == 0 && st.holds[h].attempts == h + 1 && st.holds[h].max == max
         && st.holds[h].phase == if h < done then Reported else Working
  }

  const TAKE := Take(0, "worker", 1)

  lemma Taken(st: State, max: nat, a: nat, done: nat, r: nat)
    requires Stands(st, Pending, max, a, done, r) && done <= a
    ensures Stands(Next(st, TAKE), Running, max, a + 1, done, r)
    ensures Next(st, TAKE).rows[0].lockedUntil == Some(Next(st, TAKE).now + 1)
  {
  }

  lemma Swept(st: State, max: nat, a: nat, r: nat)
    requires Stands(st, Running, max, a, 0, r) && st.rows[0].lockedUntil == Some(st.now + 1)
          && st.rows[0].runAfter <= st.now
    ensures var next := Next(Next(st, Tick(2)), Sweep);
            Stands(next, Pending, max, a, 0, r + 1) && next.rows[0].runAfter <= next.now
  {
    var later := Next(st, Tick(2));
    assert Stuck(later.rows[0], later.now);
  }

  /** After `r` claims that the sweep freed, without any report. */
  lemma {:induction false} AllSwept(max: nat, r: nat) returns (steps: seq<Step>)
    requires max >= 1
    ensures (forall s | s in steps :: !s.Restart? && !s.Report?) && Stands(Run(EMPTY, steps), Pending, max, r, 0, r)
  {
    hide Run, Stands, Next;
    if r == 0 {
      steps := [] + [Submit(0, "", "kind", max, 0)];
      RunOne([], Submit(0, "", "kind", max, 0));
      RunNone();
      Submitted(max);
    } else {
      var init := AllSwept(max, r - 1);
      var st := Run(EMPTY, init);
      steps := init + [TAKE] + [Tick(2)] + [Sweep];
      RunOne(init, TAKE);
      RunOne(init + [TAKE], Tick(2));
      RunOne(init + [TAKE] + [Tick(2)], Sweep);
      TakenEarly(st, max, r - 1);
      Swept(Next(st, TAKE), max, r, r - 1);
    }
  }

  lemma TakenEarly(st: State, max: nat, a: nat)
    requires Stands(st, Pending, max, a, 0, a)
    ensures var next := Next(st, TAKE);
            Stands(next, Running, max, a + 1, 0, a) && next.rows[0].lockedUntil == Some(next.now + 1)
            && next.rows[0].runAfter <= next.now
  {
    Taken(st, max, a, 0, a);
  }

  lemma Submitted(max: nat)
    requires max >= 1
    ensures Stands(Next(EMPTY, Submit(0, "", "kind", max, 0)), Pending, max, 0, 0, 0)
  {
  }

  /** Then `k` of the old workers report late, and the row is claimed again each time. */
  lemma {:induction false} LateReports(max: nat, r: nat, k: nat) returns (steps: seq<Step>)
    requires k < max
    ensures (forall s | s in steps :: !s.Restart?) && Stands(Run(EMPTY, steps), Running, max, r + 1 + k, k, r)
  {
    hide Run, Stands, Next;
    if k == 0 {
      var init := AllSwept(max, r);
      steps := init + [TAKE];
      RunOne(init, TAKE);
      Taken(Run(EMPTY, init), max, r, 0, r);
    } else {
      var init := LateReports(max, r, k - 1);
      var st := Run(EMPTY, init);
      steps := init + [Report(k - 1, Broke)] + [Tick(HOUR)] + [TAKE];
      RunOne(init, Report(k - 1, Broke));
      RunOne(init + [Report(k - 1, Broke)], Tick(HOUR));
      RunOne(init + [Report(k - 1, Broke)] + [Tick(HOUR)], TAKE);
      Freed(st, max, r + k, k, r);
      Taken(Next(Next(st, Report(k - 1, Broke)), Tick(HOUR)), max, r + k, k, r);
    }
  }

  lemma Freed(st: State, max: nat, a: nat, k: nat, r: nat)
    requires 1 <= k <= a && k < max && Stands(st, Running, max, a, k - 1, r)
    ensures Stands(Next(Next(st, Report(k - 1, Broke)), Tick(HOUR)), Pending, max, a, k, r)
  {
    hide NextBackoff;
    BackoffDoubles(k);
  }

  /** The bound is reached, and the row is still being run. */
  lemma {:induction false} BoundIsReached(max: nat, r: nat) returns (steps: seq<Step>)
    requires max >= 1
    ensures forall s | s in steps :: !s.Restart?
    ensures var st := Run(EMPTY, steps);
            0 in st.rows && st.rows[0].maxAttempts == max && Sweeps(st, 0) == r
            && st.rows[0].attempts == max + r && st.rows[0].status == Running
  {
    hide Run;
    steps := LateReports(max, r, max - 1);
  }
}
