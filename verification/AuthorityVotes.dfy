/** internal/authority: what passing a level took, counted in people. */
module AuthorityVotes {
  import opened Text
  import opened AuthorityModel
  import opened AuthorityRuns

  /** Who approved at a level. */
  ghost function ApproversOn(ds: seq<Decision>, n: int): set<Uid> {
    set i | 0 <= i < |ds| && ds[i].level == n && ds[i].approved :: ds[i].approver
  }

  /** Nobody voted twice at a level. */
  ghost predicate OneVoteEach(ds: seq<Decision>, n: int) {
    forall i, j | 0 <= i < j < |ds| && ds[i].level == ds[j].level == n :: ds[i].approver != ds[j].approver
  }

  lemma {:induction false} OneVoteMore(ds: seq<Decision>, n: int)
    requires ds != []
    ensures var k := |ds| - 1;
            ApproversOn(ds, n) ==
            ApproversOn(ds[..k], n) + if ds[k].level == n && ds[k].approved then {ds[k].approver} else {}
  {
    var init := ds[..|ds| - 1];
    forall u | u in ApproversOn(init, n) ensures u in ApproversOn(ds, n) {
      var i :| 0 <= i < |init| && init[i].level == n && init[i].approved && init[i].approver == u;
      assert ds[i] == init[i];
    }
  }

  lemma {:induction false} ApprovalsArePeople(ds: seq<Decision>, n: int)
    requires OneVoteEach(ds, n)
    ensures |ApproversOn(ds, n)| == Approvals(ds, n)
  {
    if ds == [] {
      assert ApproversOn(ds, n) == {};
    } else {
      var init, last := ds[..|ds| - 1], ds[|ds| - 1];
      ApprovalsArePeople(init, n);
      OneVoteMore(ds, n);
      assert last.level == n ==> last.approver !in ApproversOn(init, n);
    }
  }

  lemma {:induction false} CastOnce(wf: Workflow, k: nat, n: int)
    requires (forall i | 0 <= i < |wf.decisions| :: Cast(wf, i)) && k <= |wf.decisions|
    ensures OneVoteEach(wf.decisions[..k], n)
  {
    hide InPool;
    var ds := wf.decisions[..k];
    forall i, j | 0 <= i < j < |ds| && ds[i].level == ds[j].level == n ensures ds[i].approver != ds[j].approver {
      assert Cast(wf, j);
    }
  }

  lemma {:induction false} ApprovedIsPerson(ds: seq<Decision>, n: int, u: Uid)
    ensures ApprovedBy(ds, n, u) <==> u in ApproversOn(ds, n)
  {
    if ApprovedBy(ds, n, u) {
      var i :| 0 <= i < |ds| && ds[i].level == n && ds[i].approved && ds[i].approver == u;
      assert ds[i].approver in ApproversOn(ds, n);
    }
  }

  /** Enough people approved: one, so many, or everyone of a base pool that is not empty. */
  ghost predicate Enough(level: Level, tenant: Option<Uid>, under: Env, people: set<Uid>) {
    match level.mode
    case Any => |people| >= 1
    case Threshold(min) => |people| >= min
    case All =>
      && (exists u: Uid :: InBase(under, level, tenant, u))
      && forall u: Uid | InBase(under, level, tenant, u) :: u in people
  }

  lemma {:induction false} SatisfiedIsEnough(env: Env, level: Level, tenant: Option<Uid>, ds: seq<Decision>, n: int)
    requires OneVoteEach(ds, n)
    ensures Satisfied(env, level, tenant, ds, n) <==> Enough(level, tenant, env, ApproversOn(ds, n))
  {
    hide InBase, ApproversOn, ApprovedBy;
    ApprovalsArePeople(ds, n);
    forall u: Uid ensures ApprovedBy(ds, n, u) <==> u in ApproversOn(ds, n) { ApprovedIsPerson(ds, n, u); }
  }

  /** While a workflow runs, its level still lacks approvals: an any level has
      none, a threshold level too few. */
  ghost predicate Waits(wf: Workflow) {
    wf.status == Running && wf.current.Some? && wf.current.value in wf.levels ==>
      match wf.levels[wf.current.value].mode
      case Any => ApproversOn(wf.decisions, wf.current.value) == {}
      case Threshold(min) => |ApproversOn(wf.decisions, wf.current.value)| < min
      case All => true
  }

  ghost predicate AllWait(st: State) {
    && (forall m | m in st.matrices :: Admissible(st.matrices[m].levels))
    && forall w | w in st.workflows :: Waits(st.workflows[w])
  }

  /** On a level that has just opened nobody has voted. */
  lemma {:induction false} FreshWaits(wf: Workflow, n: int)
    requires wf.status == Running && wf.current == Some(n) && Admissible(wf.levels)
    requires forall i | 0 <= i < |wf.decisions| :: wf.decisions[i].level < n
    ensures Waits(wf)
  {
    assert ApproversOn(wf.decisions, n) == {};
  }

  lemma {:induction false} VoteWaits(st: State, w: nat, n: int, u: Uid, approve: bool, later: Env)
    requires AllSound(st) && DecideRefusal(st, w, n, u) == None && Admissible(st.workflows[w].levels)
    ensures Waits(Voted(st.workflows[w], st.workflows[w].levels, n, u, approve, st.env, later))
  {
    hide InPool, FirstFault, Satisfied, Enough, ApproversOn, PassedAt, Admissible;
    var wf := st.workflows[w];
    assert Frozen(st, wf) && Sound(wf);
    var next := Voted(wf, wf.levels, n, u, approve, st.env, later);
    VoteCasts(st, w, n, u, approve, later);
    if next.status == Running {
      if next.current == Some(n) {
        CastOnce(next, |next.decisions|, n);
        assert next.decisions[..|next.decisions|] == next.decisions;
        SatisfiedIsEnough(later, wf.levels[n], wf.c.tenant, next.decisions, n);
        NotEnough(wf.levels[n], wf.c.tenant, later, ApproversOn(next.decisions, n));
      } else {
        forall i | 0 <= i < |next.decisions| ensures next.decisions[i].level < n + 1 {
          if i < |wf.decisions| { assert Cast(wf, i); }
        }
        FreshWaits(next, n + 1);
      }
    }
  }

  lemma NotEnough(level: Level, tenant: Option<Uid>, under: Env, people: set<Uid>)
    requires !Enough(level, tenant, under, people)
    ensures level.mode.Any? ==> people == {}
    ensures level.mode.Threshold? ==> |people| < level.mode.min
  {
  }

  lemma {:induction false} StepWaits(st: State, step: Step)
    requires AllSound(st) && AllWait(st) && Selected(st, step)
    ensures AllWait(Next(st, step))
  {
    hide Voted, Sound, EnvNext, EnvRun, Admissible, DecideRefusal, OneRunning, Waits;
    var next := Next(st, step);
    match step
    case CreateWorkflow(w, m, c, target, expiresAt) =>
      if next != st {
        FreshWaits(next.workflows[w], 1);
      }
    case Decide(w, n, u, approve, between) =>
      if DecideRefusal(st, w, n, u) == None {
        Accepted(st, w, n, u);
        assert Frozen(st, st.workflows[w]);
        VoteWaits(st, w, n, u, approve, EnvRun(st.env, between));
      }
    case Cancel(w) => if next != st { StoppedWaits(next.workflows[w]); }
    case Reap =>
      forall w | w in next.workflows ensures Waits(next.workflows[w]) {
        if next.workflows[w] != st.workflows[w] { StoppedWaits(next.workflows[w]); }
      }
    case Consume(w) => if next != st { StoppedWaits(next.workflows[w]); }
    case _ =>
  }

  lemma StoppedWaits(wf: Workflow)
    requires wf.status != Running
    ensures Waits(wf)
  {
  }

  lemma {:induction false} RunWaits(env: Env, steps: seq<Step>)
    requires SelectedRun(State(env, map[], map[]), steps)
    ensures AllWait(Run(State(env, map[], map[]), steps)) && AllSound(Run(State(env, map[], map[]), steps))
  {
    hide AllSound, AllWait, Next, Selected;
    var start := State(env, map[], map[]);
    RunKeepsAll(env, steps);
    if steps == [] {
      NothingWaits(env);
    } else {
      var init := steps[..|steps| - 1];
      RunWaits(env, init);
      StepWaits(Run(start, init), steps[|steps| - 1]);
    }
  }

  lemma RunKeepsAll(env: Env, steps: seq<Step>)
    requires SelectedRun(State(env, map[], map[]), steps)
    ensures AllSound(Run(State(env, map[], map[]), steps))
  {
    hide Run, SelectedRun;
    RunKeeps(State(env, map[], map[]), steps);
  }

  lemma NothingWaits(env: Env)
    ensures AllWait(State(env, map[], map[]))
  {
  }

  /** The people behind a level that was passed, among the votes cast until then. */
  ghost predicate PassedByEnough(wf: Workflow, i: nat)
    requires i < |wf.passes|
  {
    var p := wf.passes[i];
    && i + 1 in wf.levels && p.upto <= |wf.decisions|
    && Enough(wf.levels[i + 1], wf.c.tenant, p.under, ApproversOn(wf.decisions[..p.upto], i + 1))
  }

  /** In every run: each level that a workflow passed was approved, at that level
      and by then, by enough different people for its mode, and while a workflow
      runs its level has not been. */
  lemma {:induction false} LevelsTakePeople(env: Env, steps: seq<Step>, w: nat)
    requires SelectedRun(State(env, map[], map[]), steps)
    ensures var st := Run(State(env, map[], map[]), steps);
            w in st.workflows ==>
              Waits(st.workflows[w])
              && forall i | 0 <= i < |st.workflows[w].passes| :: PassedByEnough(st.workflows[w], i)
  {
    hide Run, SelectedRun, Enough, Satisfied, InPool, Waits, ApproversOn;
    RunWaits(env, steps);
    var st := Run(State(env, map[], map[]), steps);
    if w in st.workflows {
      var wf := st.workflows[w];
      assert Sound(wf);
      forall i | 0 <= i < |wf.passes| ensures PassedByEnough(wf, i) {
        assert PassedAt(wf, i);
        CastOnce(wf, wf.passes[i].upto, i + 1);
        SatisfiedIsEnough(wf.passes[i].under, wf.levels[i + 1], wf.c.tenant, wf.decisions[..wf.passes[i].upto], i + 1);
      }
    }
  }

  // Consuming

  /** One step consumes a workflow if and only if it asks for that while the
      workflow is completed and not consumed yet. */
  lemma {:induction false} ConsumesIff(st: State, step: Step, w: nat)
    requires w in st.workflows && !st.workflows[w].consumed
    ensures w in Next(st, step).workflows
    ensures Next(st, step).workflows[w].consumed <==> step == Consume(w) && st.workflows[w].status == Completed
  {
    hide InPool, Satisfied, EnvNext, EnvRun, FirstFault;
  }

  lemma {:induction false} ConsumedStays(st: State, step: Step, w: nat)
    requires w in st.workflows && st.workflows[w].consumed && st.workflows[w].status == Completed
    ensures w in Next(st, step).workflows && Next(st, step).workflows[w] == st.workflows[w]
  {
    hide InPool, Satisfied, EnvNext, EnvRun, FirstFault;
  }

  /** Whether a request to consume succeeds, as the caller is told. */
  ghost predicate Consumes(st: State, step: Step, w: nat) {
    step == Consume(w) && w in st.workflows && st.workflows[w].status == Completed && !st.workflows[w].consumed
  }

  ghost function TimesConsumed(st: State, steps: seq<Step>, w: nat): nat {
    if steps == [] then 0
    else
      var init := steps[..|steps| - 1];
      TimesConsumed(st, init, w) + if Consumes(Run(st, init), steps[|steps| - 1], w) then 1 else 0
  }

  /** Over every run a workflow is consumed at most once, and is marked so exactly then. */
  lemma {:induction false} ConsumedOnce(env: Env, steps: seq<Step>, w: nat)
    requires SelectedRun(State(env, map[], map[]), steps)
    ensures var start := State(env, map[], map[]);
            && TimesConsumed(start, steps, w) <= 1
            && (w !in Run(start, steps).workflows ==> TimesConsumed(start, steps, w) == 0)
            && (w in Run(start, steps).workflows ==>
                (Run(start, steps).workflows[w].consumed <==> TimesConsumed(start, steps, w) == 1))
  {
    hide AllSound, Next, Selected;
    var start := State(env, map[], map[]);
    if steps != [] {
      var init, last := steps[..|steps| - 1], steps[|steps| - 1];
      ConsumedOnce(env, init, w);
      RunKeepsAll(env, init);
      var st := Run(start, init);
      if w in st.workflows {
        SoundConsumed(st, w);
        if st.workflows[w].consumed { ConsumedStays(st, last, w); } else { ConsumesIff(st, last, w); }
      } else {
        NewIsUnconsumed(st, last, w);
      }
    }
  }

  lemma SoundConsumed(st: State, w: nat)
    requires AllSound(st) && w in st.workflows
    ensures st.workflows[w].consumed ==> st.workflows[w].status == Completed
  {
    assert Sound(st.workflows[w]);
  }

  lemma NewIsUnconsumed(st: State, step: Step, w: nat)
    requires w !in st.workflows
    ensures w in Next(st, step).workflows ==> !Next(st, step).workflows[w].consumed
  {
    hide Voted, InPool, EnvNext, EnvRun, FirstFault;
  }
}
