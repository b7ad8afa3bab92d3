/** internal/authority: matrices, workflows and decisions as steps on the tables,
    in any order and with roles, delegations and the clock changing in between. */
module AuthorityRuns {
  import opened Text
  import opened AuthorityModel
  import opened Ids

  // What changes around a workflow

  datatype EnvStep =
    | Grant(a: Assignment)
    | Withdraw(a: Assignment)
    | Delegate(id: nat, d: Delegation)
    | EndDelegation(id: nat)
    | ReapDelegations
    | Tick(elapsed: nat)

  /** `CreateDelegation` accepts two different, named users and a forward window. */
  predicate Delegable(d: Delegation) {
    d.delegator != d.delegatee && d.delegator != NIL && d.delegatee != NIL && d.active &&
    (d.to == None || d.to.value > d.from)
  }

  function EnvNext(env: Env, e: EnvStep): Env {
    match e
    case Grant(a) => env.(roles := env.roles + {a})
    case Withdraw(a) => env.(roles := env.roles - {a})
    case Delegate(id, d) =>
      if id in env.delegations || !Delegable(d) then env else env.(delegations := env.delegations[id := d])
    case EndDelegation(id) =>
      if id in env.delegations && env.delegations[id].active
      then env.(delegations := env.delegations[id := env.delegations[id].(active := false)]) else env
    case ReapDelegations =>
      env.(delegations := map id | id in env.delegations :: Reaped(env.delegations[id], env.now))
    case Tick(elapsed) => env.(now := env.now + elapsed)
  }

  function Reaped(d: Delegation, now: int): Delegation {
    if d.active && d.to.Some? && d.to.value < now then d.(active := false) else d
  }

  function EnvRun(env: Env, es: seq<EnvStep>): Env {
    if es == [] then env else EnvNext(EnvRun(env, es[..|es| - 1]), es[|es| - 1])
  }

  // The tables

  datatype MatrixStatus = Draft | Approved | Archived | Revoked

  datatype Matrix = Matrix(status: MatrixStatus, levels: map<int, Level>)

  /** A vote, with the surroundings it was cast under. */
  datatype Decision = Decision(level: int, approver: Uid, approved: bool, under: Env)

  datatype Status = Running | Completed | Rejected | Cancelled | Expired

  /** A level passed: the surroundings it was judged under, and how many votes there were. */
  datatype Pass = Pass(under: Env, upto: nat)

  /** `levels` are the levels the matrix had at the start; `passes` what was passed so far. */
  datatype Workflow = Workflow(
    matrix: nat, levels: map<int, Level>, c: Context, target: nat, status: Status, current: Option<int>,
    decisions: seq<Decision>, passes: seq<Pass>, expiresAt: int, consumed: bool)

  datatype State = State(env: Env, matrices: map<nat, Matrix>, workflows: map<nat, Workflow>)

  // Satisfaction of a level

  function Approvals(ds: seq<Decision>, n: int): nat {
    if ds == [] then 0
    else
      var last := ds[|ds| - 1];
      Approvals(ds[..|ds| - 1], n) + if last.level == n && last.approved then 1 else 0
  }

  predicate ApprovedBy(ds: seq<Decision>, n: int, u: Uid) {
    exists i :: 0 <= i < |ds| && ds[i].level == n && ds[i].approved && ds[i].approver == u
  }

  /** One approval; at least so many; or one from everyone in a base pool that is not empty. */
  ghost predicate Satisfied(env: Env, level: Level, tenant: Option<Uid>, ds: seq<Decision>, n: int) {
    match level.mode
    case Any => Approvals(ds, n) >= 1
    case Threshold(min) => Approvals(ds, n) >= min
    case All =>
      && (exists u: Uid :: InBase(env, level, tenant, u))
      && forall u: Uid | InBase(env, level, tenant, u) :: ApprovedBy(ds, n, u)
  }

  // Steps

  datatype Step =
    | Around(e: EnvStep)
    | CreateMatrix(m: nat, matrix: Matrix)
    | UpdateDraft(m: nat, levels: map<int, Level>)
    | ApproveMatrix(m: nat)
    | RevokeMatrix(m: nat)
    | DeleteDraft(m: nat)
    | CreateWorkflow(w: nat, m: nat, c: Context, target: nat, expiresAt: int)
    | Decide(w: nat, n: int, approver: Uid, approve: bool, between: seq<EnvStep>)
    | Cancel(w: nat)
    | Reap
    | Consume(w: nat)

  /** A level list the tables accept: positive numbers, positive thresholds, supported approvers. */
  predicate Admissible(levels: map<int, Level>) {
    forall n | n in levels ::
      && n > 0 && (levels[n].mode.Threshold? ==> levels[n].mode.min > 0)
      && Unsupported !in levels[n].approvers
  }

  predicate InUse(st: State, m: nat) { exists w :: w in st.workflows && st.workflows[w].matrix == m }

  predicate Busy(st: State, target: nat) {
    exists w :: w in st.workflows && st.workflows[w].status == Running && st.workflows[w].target == target
  }

  datatype Refusal =
    | NotFound | Terminal | NoLevel | WrongLevel | LevelMissing | Unresolved(f: Fault) | NotQualified | Duplicate

  /** Why a vote is refused, checked in this order. */
  ghost function DecideRefusal(st: State, w: nat, n: int, u: Uid): Option<Refusal> {
    if w !in st.workflows then Some(NotFound)
    else
      var wf := st.workflows[w];
      if wf.status != Running then Some(Terminal)
      else if wf.current == None then Some(NoLevel)
      else if wf.current != Some(n) then Some(WrongLevel)
      else if wf.matrix !in st.matrices || n !in st.matrices[wf.matrix].levels then Some(LevelMissing)
      else
        var level := st.matrices[wf.matrix].levels[n];
        if FirstFault(st.env, level.approvers).Some? then Some(Unresolved(FirstFault(st.env, level.approvers).value))
        else if !InPool(st.env, level, wf.c, u) then Some(NotQualified)
        else if exists d :: d in wf.decisions && d.level == n && d.approver == u then Some(Duplicate)
        else None
  }

  /** The workflow after an accepted vote; `later` is how things stand when the level is judged. */
  ghost function Voted(wf: Workflow, levels: map<int, Level>, n: int, u: Uid, approve: bool, env: Env,
          later: Env): Workflow
    requires n in levels
  {
    var next := wf.(decisions := wf.decisions + [Decision(n, u, approve, env)]);
    if !approve then next.(status := Rejected, current := None)
    else if !Satisfied(later, levels[n], wf.c.tenant, next.decisions, n) then next
    else
      var passed := next.(passes := wf.passes + [Pass(later, |next.decisions|)]);
      if n + 1 in levels then passed.(current := Some(n + 1)) else passed.(status := Completed, current := None)
  }

  ghost function Next(st: State, step: Step): State {
    match step
    case Around(e) => st.(env := EnvNext(st.env, e))
    case CreateMatrix(m, matrix) =>
      if m in st.matrices || !Admissible(matrix.levels) then st else st.(matrices := st.matrices[m := matrix])
    case UpdateDraft(m, levels) =>
      if m in st.matrices && st.matrices[m].status == Draft && Admissible(levels)
      then st.(matrices := st.matrices[m := st.matrices[m].(levels := levels)]) else st
    case ApproveMatrix(m) =>
      if m in st.matrices && st.matrices[m].status == Draft
      then st.(matrices := st.matrices[m := st.matrices[m].(status := Approved)]) else st
    case RevokeMatrix(m) =>
      if m in st.matrices && st.matrices[m].status == Approved
      then st.(matrices := st.matrices[m := st.matrices[m].(status := Revoked)]) else st
    case DeleteDraft(m) =>
      if m in st.matrices && st.matrices[m].status == Draft && !InUse(st, m)
      then st.(matrices := st.matrices - {m}) else st
    case CreateWorkflow(w, m, c, target, expiresAt) =>
      if w in st.workflows || m !in st.matrices || st.matrices[m].levels == map[] || Busy(st, target) then st
      else
        st.(workflows := st.workflows[w := Workflow(
            m, st.matrices[m].levels, c, target, Running, Some(1), [], [], expiresAt, false)])
    case Decide(w, n, u, approve, between) =>
      var later := EnvRun(st.env, between);
      if DecideRefusal(st, w, n, u).Some? then st.(env := later)
      else
        var wf := st.workflows[w];
        var levels := st.matrices[wf.matrix].levels;
        State(later, st.matrices, st.workflows[w := Voted(wf, levels, n, u, approve, st.env, later)])
    case Cancel(w) =>
      if w in st.workflows && st.workflows[w].status == Running
      then st.(workflows := st.workflows[w := st.workflows[w].(status := Cancelled, current := None)]) else st
    case Reap => st.(workflows := map w | w in st.workflows :: Overdue(st.workflows[w], st.env.now))
    case Consume(w) =>
      if w in st.workflows && st.workflows[w].status == Completed && !st.workflows[w].consumed
      then st.(workflows := st.workflows[w := st.workflows[w].(consumed := true)]) else st
  }

  function Overdue(wf: Workflow, now: int): Workflow {
    if wf.status == Running && wf.expiresAt < now then wf.(status := Expired, current := None) else wf
  }

  ghost function Run(st: State, steps: seq<Step>): State {
    if steps == [] then st else Next(Run(st, steps[..|steps| - 1]), steps[|steps| - 1])
  }

  /** Workflows are opened on matrices that have left draft, as the selector gives them. */
  ghost predicate Selected(st: State, step: Step) {
    step.CreateWorkflow? && step.m in st.matrices ==> st.matrices[step.m].status != Draft
  }

  ghost predicate SelectedRun(st: State, steps: seq<Step>) {
    steps == [] ||
    (SelectedRun(st, steps[..|steps| - 1]) && Selected(Run(st, steps[..|steps| - 1]), steps[|steps| - 1]))
  }

  // What every workflow keeps

  ghost predicate NoRejection(wf: Workflow) { forall d | d in wf.decisions :: d.approved }

  /** Exactly one rejection, and it is the last vote. */
  ghost predicate OneRejectionLast(wf: Workflow) {
    var k := |wf.decisions| - 1;
    k >= 0 && !wf.decisions[k].approved && forall i | 0 <= i < k :: wf.decisions[i].approved
  }

  /** Level `i + 1` exists and was satisfied by the votes cast until it was passed. */
  ghost predicate PassedAt(wf: Workflow, i: nat)
    requires i < |wf.passes|
  {
    var p := wf.passes[i];
    && i + 1 in wf.levels && p.upto <= |wf.decisions|
    && Satisfied(p.under, wf.levels[i + 1], wf.c.tenant, wf.decisions[..p.upto], i + 1)
  }

  /** Every vote is on a level that was open, by a member of that level's pool when cast, who had not voted there. */
  ghost predicate Cast(wf: Workflow, i: nat)
    requires i < |wf.decisions|
  {
    var d := wf.decisions[i];
    && 1 <= d.level <= |wf.passes| + 1 && d.level in wf.levels
    && InPool(d.under, wf.levels[d.level], wf.c, d.approver)
    && forall j | 0 <= j < i :: wf.decisions[j].level == d.level ==> wf.decisions[j].approver != d.approver
  }

  /** Votes come level by level. */
  ghost predicate InOrder(wf: Workflow) {
    forall i, j | 0 <= i < j < |wf.decisions| :: wf.decisions[i].level <= wf.decisions[j].level
  }

  ghost predicate Sound(wf: Workflow) {
    && (forall i | 0 <= i < |wf.passes| :: PassedAt(wf, i))
    && (forall i | 0 <= i < |wf.decisions| :: Cast(wf, i))
    && InOrder(wf)
    && (wf.consumed ==> wf.status == Completed)
    && match wf.status
       case Running => wf.current == Some(|wf.passes| + 1) && NoRejection(wf)
       case Completed => wf.current == None && NoRejection(wf) && |wf.passes| > 0 && |wf.passes| + 1 !in wf.levels
       case Rejected => wf.current == None && OneRejectionLast(wf)
       case _ => wf.current == None && NoRejection(wf)
  }

  /** The matrix of a workflow has left draft and still has the levels it started with. */
  ghost predicate Frozen(st: State, wf: Workflow) {
    wf.matrix in st.matrices && st.matrices[wf.matrix].status != Draft && st.matrices[wf.matrix].levels == wf.levels
  }

  ghost predicate OneRunning(st: State) {
    forall v, w | v in st.workflows && w in st.workflows && v != w ::
      st.workflows[v].status == Running && st.workflows[w].status == Running ==>
      st.workflows[v].target != st.workflows[w].target
  }

  ghost predicate AllSound(st: State) {
    (forall w | w in st.workflows :: Sound(st.workflows[w]) && Frozen(st, st.workflows[w])) && OneRunning(st)
  }

  lemma {:induction false} VoteCasts(st: State, w: nat, n: int, u: Uid, approve: bool, later: Env)
    requires w in st.workflows && DecideRefusal(st, w, n, u) == None
    requires Sound(st.workflows[w]) && Frozen(st, st.workflows[w])
    ensures var next := Voted(st.workflows[w], st.workflows[w].levels, n, u, approve, st.env, later);
            InOrder(next) && forall i | 0 <= i < |next.decisions| :: Cast(next, i)
  {
    hide Satisfied, InPool, FirstFault, PassedAt;
    var wf := st.workflows[w];
    var next := Voted(wf, wf.levels, n, u, approve, st.env, later);
    var k := |wf.decisions|;
    forall i | 0 <= i < |next.decisions| ensures Cast(next, i) {
      if i < k { assert Cast(wf, i); }
    }
    forall i, j | 0 <= i < j < |next.decisions| ensures next.decisions[i].level <= next.decisions[j].level {
      if j == k { assert Cast(wf, i); }
    }
  }

  lemma {:induction false} VotePasses(wf: Workflow, n: int, u: Uid, approve: bool, env: Env, later: Env)
    requires n in wf.levels && n == |wf.passes| + 1 && forall i | 0 <= i < |wf.passes| :: PassedAt(wf, i)
    ensures var next := Voted(wf, wf.levels, n, u, approve, env, later);
            forall i | 0 <= i < |next.passes| :: PassedAt(next, i)
  {
    hide Satisfied;
    var next := Voted(wf, wf.levels, n, u, approve, env, later);
    assert next.decisions[..|next.decisions|] == next.decisions;
    forall i | 0 <= i < |next.passes| ensures PassedAt(next, i) {
      if i < |wf.passes| {
        assert PassedAt(wf, i) && next.decisions[..next.passes[i].upto] == wf.decisions[..wf.passes[i].upto];
      }
    }
  }

  lemma {:induction false} VoteKeeps(st: State, w: nat, n: int, u: Uid, approve: bool, later: Env)
    requires w in st.workflows && DecideRefusal(st, w, n, u) == None
    requires Sound(st.workflows[w]) && Frozen(st, st.workflows[w])
    ensures var wf := st.workflows[w]; Sound(Voted(wf, wf.levels, n, u, approve, st.env, later))
  {
    hide Satisfied, InPool, FirstFault, PassedAt, Cast, InOrder;
    VoteCasts(st, w, n, u, approve, later);
    VotePasses(st.workflows[w], n, u, approve, st.env, later);
  }

  /** Matrices may change as long as those in use do not. */
  lemma {:induction false} TablesKeep(st: State, next: State)
    requires AllSound(st) && next.workflows == st.workflows
    requires forall m | m in st.matrices && st.matrices[m].status != Draft ::
               m in next.matrices && next.matrices[m].status != Draft &&
               next.matrices[m].levels == st.matrices[m].levels
    ensures AllSound(next)
  {
    hide Sound;
    forall w | w in next.workflows ensures Sound(next.workflows[w]) && Frozen(next, next.workflows[w]) {
      assert Frozen(st, st.workflows[w]);
    }
  }

  /** One workflow may change to a sound one that does not start running. */
  lemma {:induction false} WorkflowKeeps(st: State, next: State, w: nat, wf: Workflow)
    requires AllSound(st) && w in st.workflows && next == st.(env := next.env, workflows := st.workflows[w := wf])
    requires Sound(wf) && wf.matrix == st.workflows[w].matrix && wf.levels == st.workflows[w].levels
    requires wf.target == st.workflows[w].target && (wf.status == Running ==> st.workflows[w].status == Running)
    ensures AllSound(next)
  {
    hide Sound;
    forall v | v in next.workflows ensures Sound(next.workflows[v]) && Frozen(next, next.workflows[v]) {
      assert Frozen(st, st.workflows[v]);
    }
  }

  lemma {:induction false} CreateKeeps(st: State, step: Step)
    requires AllSound(st) && Selected(st, step) && step.CreateWorkflow?
    ensures AllSound(Next(st, step))
  {
    var next := Next(st, step);
    if next != st {
      hide Sound;
      var wf := next.workflows[step.w];
      FreshIsSound(wf);
      forall v | v in next.workflows ensures Sound(next.workflows[v]) && Frozen(next, next.workflows[v]) {
        if v != step.w { assert Frozen(st, st.workflows[v]); }
      }
    }
  }

  lemma FreshIsSound(wf: Workflow)
    requires wf.status == Running && wf.current == Some(1) && wf.decisions == [] && wf.passes == [] && !wf.consumed
    ensures Sound(wf)
  {
  }

  lemma {:induction false} ReapKeeps(st: State)
    requires AllSound(st)
    ensures AllSound(Next(st, Reap))
  {
    hide Sound;
    var next := Next(st, Reap);
    forall w | w in next.workflows ensures Sound(next.workflows[w]) && Frozen(next, next.workflows[w]) {
      assert Frozen(st, st.workflows[w]);
      EndedIsSound(st.workflows[w], Expired);
    }
  }

  lemma EndedIsSound(wf: Workflow, s: Status)
    requires Sound(wf) && (s == Expired || s == Cancelled)
    ensures wf.status == Running ==> Sound(wf.(status := s, current := None))
  {
    hide Satisfied, InPool;
    var next := wf.(status := s, current := None);
    assert forall i | 0 <= i < |wf.passes| :: PassedAt(wf, i) ==> PassedAt(next, i);
    assert forall i | 0 <= i < |wf.decisions| :: Cast(wf, i) ==> Cast(next, i);
  }

  lemma ConsumedIsSound(wf: Workflow)
    requires Sound(wf) && wf.status == Completed
    ensures Sound(wf.(consumed := true))
  {
    hide Satisfied, InPool;
    var next := wf.(consumed := true);
    assert forall i | 0 <= i < |wf.passes| :: PassedAt(wf, i) ==> PassedAt(next, i);
    assert forall i | 0 <= i < |wf.decisions| :: Cast(wf, i) ==> Cast(next, i);
  }

  lemma {:induction false} StepKeeps(st: State, step: Step)
    requires AllSound(st) && Selected(st, step)
    ensures AllSound(Next(st, step))
  {
    hide Voted, Sound, EnvNext, EnvRun, Admissible, DecideRefusal, OneRunning;
    var next := Next(st, step);
    match step
    case CreateWorkflow(w, _, _, _, _) => CreateKeeps(st, step);
    case Decide(w, n, u, approve, between) =>
      if DecideRefusal(st, w, n, u) == None {
        Accepted(st, w, n, u);
        VoteKeeps(st, w, n, u, approve, EnvRun(st.env, between));
        VotedStays(st.workflows[w], n, u, approve, st.env, EnvRun(st.env, between));
        WorkflowKeeps(st, next, w, next.workflows[w]);
      } else {
        TablesKeep(st, next);
      }
    case Cancel(w) =>
      if next != st {
        EndedIsSound(st.workflows[w], Cancelled);
        WorkflowKeeps(st, next, w, next.workflows[w]);
      }
    case Reap => ReapKeeps(st);
    case Consume(w) =>
      if next != st {
        ConsumedIsSound(st.workflows[w]);
        WorkflowKeeps(st, next, w, next.workflows[w]);
      }
    case _ => TablesKeep(st, next);
  }

  lemma Accepted(st: State, w: nat, n: int, u: Uid)
    requires DecideRefusal(st, w, n, u) == None
    ensures w in st.workflows && st.workflows[w].status == Running && st.workflows[w].matrix in st.matrices
    ensures n in st.matrices[st.workflows[w].matrix].levels
  {
  }

  lemma VotedStays(wf: Workflow, n: int, u: Uid, approve: bool, env: Env, later: Env)
    requires n in wf.levels
    ensures var next := Voted(wf, wf.levels, n, u, approve, env, later);
            next.matrix == wf.matrix && next.levels == wf.levels && next.target == wf.target
  {
  }

  lemma {:induction false} RunKeeps(st: State, steps: seq<Step>)
    requires AllSound(st) && SelectedRun(st, steps)
    ensures AllSound(Run(st, steps))
  {
    hide AllSound, Next, Selected;
    if steps != [] {
      RunKeeps(st, steps[..|steps| - 1]);
      StepKeeps(Run(st, steps[..|steps| - 1]), steps[|steps| - 1]);
    }
  }

  /** In every run from empty tables: a completed workflow passed levels 1 to m
      in order, each by votes that met the level's mode when it was judged, cast
      by distinct members of the level's pool, with no rejection, against the
      levels its matrix still has; a rejected one has one rejection, its last vote. */
  lemma {:induction false} ApprovalIsSound(env: Env, steps: seq<Step>, w: nat)
    requires SelectedRun(State(env, map[], map[]), steps)
    ensures var st := Run(State(env, map[], map[]), steps);
            w in st.workflows ==> Sound(st.workflows[w]) && Frozen(st, st.workflows[w])
  {
    hide Sound, Run, SelectedRun;
    RunKeeps(State(env, map[], map[]), steps);
  }

  /** The declared levels are numbered without a gap. */
  ghost predicate Contiguous(levels: map<int, Level>) {
    forall n, k | n in levels && 1 <= k <= n :: k in levels
  }

  /** A completed workflow passed every level its matrix declares exactly when the levels have no gap. */
  lemma {:induction false} EveryLevelPassedIff(wf: Workflow)
    requires Sound(wf) && wf.status == Completed && forall n | n in wf.levels :: n > 0
    ensures (forall n | n in wf.levels :: n <= |wf.passes|) <==> Contiguous(wf.levels)
  {
    hide Satisfied, InPool;
    assert forall i | 0 <= i < |wf.passes| :: PassedAt(wf, i);
    forall k | 1 <= k <= |wf.passes| ensures k in wf.levels { assert PassedAt(wf, k - 1); }
    if Contiguous(wf.levels) {
      forall n | n in wf.levels ensures n <= |wf.passes| {
        assert n > |wf.passes| ==> |wf.passes| + 1 in wf.levels;
      }
    }
  }

  /** A terminal workflow never changes again but for being consumed, once. */
  lemma {:induction false} TerminalIsFinal(st: State, step: Step, w: nat)
    requires w in st.workflows && st.workflows[w].status != Running
    ensures w in Next(st, step).workflows
    ensures var before, after := st.workflows[w], Next(st, step).workflows[w];
            after == before || (!before.consumed && before.status == Completed && after == before.(consumed := true))
  {
    hide Voted, InPool, Satisfied, EnvNext, EnvRun;
  }

  /** Ended delegations stay ended: no surroundings step brings one back. */
  lemma {:induction false} EndedDelegationStays(env: Env, es: seq<EnvStep>, id: nat)
    requires id in env.delegations && !env.delegations[id].active
    ensures id in EnvRun(env, es).delegations && !EnvRun(env, es).delegations[id].active
  {
    if es != [] { EndedDelegationStays(env, es[..|es| - 1], id); }
  }
}
