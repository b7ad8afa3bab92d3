/** internal/authority: a matrix whose level numbers have a gap. */
module AuthorityGap {
  import opened Text
  import opened AuthorityModel
  import opened AuthorityRuns

  const EDITORS := Level(Any, [Role("editor")])

  /** Levels 1 and 3; the interface asks only that each number is at least 1. */
  const GAPPED: map<int, Level> := map[1 := EDITORS, 3 := EDITORS]

  function Office(u: Uid): Env { Env(PLAIN, {Assignment(u, "editor", None)}, map[], 0) }

  lemma {:induction false} EditorsAgree(u: Uid, c: Context)
    ensures InPool(Office(u), EDITORS, c, u) && FirstFault(Office(u), EDITORS.approvers) == None
  {
    assert Assignment(u, "editor", None) in Office(u).roles;
    assert HoldsRole(Office(u), u, "editor", c.tenant);
    assert Role("editor") in EDITORS.approvers && Names(Office(u), Role("editor"), u, c.tenant);
    assert EDITORS.approvers[1..] == [];
  }

  ghost function Opened(u: Uid, c: Context): State {
    var wf := Workflow(0, GAPPED, c, 0, Running, Some(1), [], [], 0, false);
    State(Office(u), map[0 := Matrix(Approved, GAPPED)], map[0 := wf])
  }

  lemma {:induction false} ThreeSteps(u: Uid, c: Context)
    ensures var steps := [CreateMatrix(0, Matrix(Draft, GAPPED)), ApproveMatrix(0), CreateWorkflow(0, 0, c, 0, 0)];
            Run(State(Office(u), map[], map[]), steps) == Opened(u, c)
            && SelectedRun(State(Office(u), map[], map[]), steps)
  {
    hide Office, SelectedRun;
    var st := State(Office(u), map[], map[]);
    var a, b, d := CreateMatrix(0, Matrix(Draft, GAPPED)), ApproveMatrix(0), CreateWorkflow(0, 0, c, 0, 0);
    assert [a, b, d][..2] == [a, b] && [a, b][..1] == [a] && [a][..0] == [];
    assert Run(st, [a]) == State(Office(u), map[0 := Matrix(Draft, GAPPED)], map[]);
    assert Run(st, [a, b]) == State(Office(u), map[0 := Matrix(Approved, GAPPED)], map[]);
    assert 1 in GAPPED && !Busy(Run(st, [a, b]), 0);
    assert Run(st, [a, b, d]) == Next(Run(st, [a, b]), d) && [a, b, d][2] == d;
    assert Next(Run(st, [a, b]), d).workflows == Opened(u, c).workflows;
    SelectedMore(st, []);
    SelectedMore(st, [a]);
    SelectedMore(st, [a, b]);
    SelectedMore(st, [a, b, d]);
  }

  lemma SelectedMore(st: State, steps: seq<Step>)
    ensures SelectedRun(st, steps) <==>
            steps == [] ||
            (SelectedRun(st, steps[..|steps| - 1]) && Selected(Run(st, steps[..|steps| - 1]), steps[|steps| - 1]))
  {
  }

  /** One approval at level 1 completes the workflow, although level 3 was never passed. */
  lemma {:induction false} GapEndsEarly(u: Uid, c: Context)
    ensures var start := State(Office(u), map[], map[]);
            var steps := [CreateMatrix(0, Matrix(Draft, GAPPED)), ApproveMatrix(0), CreateWorkflow(0, 0, c, 0, 0)]
                         + [Decide(0, 1, u, true, [])];
            && SelectedRun(start, steps) && 0 in Run(start, steps).workflows
            && var wf := Run(start, steps).workflows[0];
            && wf.status == Completed && 3 in wf.levels && |wf.passes| == 1 && |wf.decisions| == 1
  {
    hide Office, Run, SelectedRun, InPool, FirstFault;
    var start, st := State(Office(u), map[], map[]), Opened(u, c);
    var three := [CreateMatrix(0, Matrix(Draft, GAPPED)), ApproveMatrix(0), CreateWorkflow(0, 0, c, 0, 0)];
    var vote := Decide(0, 1, u, true, []);
    ThreeSteps(u, c);
    EditorsAgree(u, c);
    assert (three + [vote])[..3] == three;
    SelectedMore(start, three + [vote]);
    assert Run(start, three + [vote]) == Next(st, vote) by { RunMore(start, three, vote); }
    assert DecideRefusal(st, 0, 1, u) == None;
    var vd := Decision(1, u, true, st.env);
    assert EnvRun(st.env, []) == st.env && [] + [vd] == [vd];
    assert Approvals([vd], 1) == 1 by { assert [vd][..0] == []; }
  }

  lemma RunMore(st: State, steps: seq<Step>, step: Step)
    ensures Run(st, steps + [step]) == Next(Run(st, steps), step)
  {
    assert (steps + [step])[..|steps|] == steps;
  }
}
