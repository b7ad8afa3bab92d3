/** internal/authority/workflow.go and store.go: the operations on the tables. */
module AuthorityStore {
  import opened Text
  import opened AuthorityModel
  import opened AuthorityPool
  import opened AuthorityRuns

  /** `evalLevelSatisfaction`: counts and looks up the approvals of a level. */
  method EvalLevelSatisfaction(env: Env, level: Level, tenant: Option<Uid>, ds: seq<Decision>, n: int)
    returns (satisfied: bool)
    requires FirstFault(env, level.approvers) == None
    ensures satisfied <==> Satisfied(env, level, tenant, ds, n)
  {
    hide InBase, FirstFault;
    var count := 0;
    var approved: set<Uid> := {};
    for i := 0 to |ds|
      invariant count == Approvals(ds[..i], n)
      invariant forall u :: u in approved <==> ApprovedBy(ds[..i], n, u)
    {
      assert ds[..i + 1][..i] == ds[..i];
      VotesGrow(ds, i, n);
      if ds[i].level == n && ds[i].approved {
        count := count + 1;
        approved := approved + {ds[i].approver};
      }
    }
    assert ds[..|ds|] == ds;
    match level.mode
    case Any => satisfied := count >= 1;
    case Threshold(min) => satisfied := count >= min;
    case All =>
      var qualified := ResolveApprovers(env, level, tenant);
      var pool := qualified.value;
      if pool == [] {
        assert forall u :: InBase(env, level, tenant, u) ==> u in pool;
        return false;
      }
      assert InBase(env, level, tenant, pool[0]);
      for i := 0 to |pool|
        invariant forall j | 0 <= j < i :: pool[j] in approved
      {
        if pool[i] !in approved {
          return false;
        }
      }
      satisfied := true;
  }

  lemma VotesGrow(ds: seq<Decision>, i: nat, n: int)
    requires i < |ds|
    ensures forall u :: ApprovedBy(ds[..i + 1], n, u) <==>
                        ApprovedBy(ds[..i], n, u) || (ds[i].level == n && ds[i].approved && ds[i].approver == u)
  {
    forall u | ApprovedBy(ds[..i], n, u) ensures ApprovedBy(ds[..i + 1], n, u) {
      var j :| 0 <= j < i && ds[..i][j].level == n && ds[..i][j].approved && ds[..i][j].approver == u;
      assert ds[..i + 1][j] == ds[..i][j];
    }
    assert ds[..i + 1][i] == ds[i];
  }

  lemma SurroundingsKeepFaults(env: Env, es: seq<EnvStep>, aps: seq<Approver>)
    ensures FirstFault(EnvRun(env, es), aps) == FirstFault(env, aps)
    decreases |es|, |aps|
  {
    if es != [] {
      SurroundingsKeepFaults(env, es[..|es| - 1], aps);
      OneKeepsFaults(EnvRun(env, es[..|es| - 1]), es[|es| - 1], aps);
    }
  }

  lemma {:induction false} OneKeepsFaults(env: Env, e: EnvStep, aps: seq<Approver>)
    ensures FirstFault(EnvNext(env, e), aps) == FirstFault(env, aps)
  {
    if aps != [] { OneKeepsFaults(env, e, aps[1..]); }
  }

  class Store {
    var env: Env
    var matrices: map<nat, Matrix>
    var workflows: map<nat, Workflow>

    ghost function View(): State
      reads this
    {
      State(env, matrices, workflows)
    }

    /** The vote: the pool is resolved under the surroundings of now, the level
        is judged under those after `between`, all while the workflow row is locked. */
    method RecordDecision(w: nat, n: int, u: Uid, approve: bool, between: seq<EnvStep>)
      returns (refused: Option<Refusal>)
      modifies this
      ensures refused == DecideRefusal(old(View()), w, n, u)
      ensures View() == Next(old(View()), Decide(w, n, u, approve, between))
    {
      hide Satisfied, InPool, FirstFault, EnvNext, EnvRun;
      var at, later := env, EnvRun(env, between);
      env := later;
      if w !in workflows {
        return Some(NotFound);
      }
      var wf := workflows[w];
      if wf.status != Running {
        return Some(Terminal);
      }
      if wf.current == None {
        return Some(NoLevel);
      }
      if wf.current.value != n {
        return Some(WrongLevel);
      }
      if wf.matrix !in matrices || n !in matrices[wf.matrix].levels {
        return Some(LevelMissing);
      }
      var levels := matrices[wf.matrix].levels;
      var level := levels[n];
      var qualified := ResolveApproversWithDelegation(at, level, wf.c);
      if qualified.Err? {
        return Some(Unresolved(qualified.error));
      }
      if u !in qualified.value {
        return Some(NotQualified);
      }
      if exists i :: 0 <= i < |wf.decisions| && wf.decisions[i].level == n && wf.decisions[i].approver == u {
        return Some(Duplicate);
      }
      refused := None;
      wf := wf.(decisions := wf.decisions + [Decision(n, u, approve, at)]);
      if !approve {
        wf := wf.(status := Rejected, current := None);
        workflows := workflows[w := wf];
        return;
      }
      SurroundingsKeepFaults(at, between, level.approvers);
      var satisfied := EvalLevelSatisfaction(later, level, wf.c.tenant, wf.decisions, n);
      if satisfied {
        wf := wf.(passes := wf.passes + [Pass(later, |wf.decisions|)]);
        if n + 1 in levels {
          wf := wf.(current := Some(n + 1));
        } else {
          wf := wf.(status := Completed, current := None);
        }
      }
      workflows := workflows[w := wf];
    }

    method CreateWorkflow(w: nat, m: nat, c: Context, target: nat, ttl: int) returns (created: bool)
      requires w !in workflows && m in matrices
      modifies this
      ensures View() == Next(old(View()), AuthorityRuns.CreateWorkflow(w, m, c, target, env.now + ttl))
      ensures created <==> old(matrices[m].levels) != map[] && !Busy(old(View()), target)
    {
      if matrices[m].levels == map[] {
        return false;
      }
      if exists v :: v in workflows && workflows[v].status == Running && workflows[v].target == target {
        return false;
      }
      workflows := workflows[w := Workflow(
          m, matrices[m].levels, c, target, Running, Some(1), [], [], env.now + ttl, false)];
      created := true;
    }

    method CancelWorkflow(w: nat) returns (refused: Option<Refusal>)
      modifies this
      ensures View() == Next(old(View()), Cancel(w))
      ensures refused == if w !in old(workflows) then Some(NotFound)
                         else if old(workflows[w].status) != Running then Some(Terminal) else None
    {
      if w !in workflows {
        return Some(NotFound);
      }
      if workflows[w].status != Running {
        return Some(Terminal);
      }
      workflows := workflows[w := workflows[w].(status := Cancelled, current := None)];
      refused := None;
    }

    /** Consuming succeeds once, and only on a completed workflow. */
    method MarkConsumed(w: nat) returns (done: bool)
      modifies this
      ensures View() == Next(old(View()), Consume(w))
      ensures done <==> w in old(workflows) && old(workflows[w].status) == Completed && !old(workflows[w].consumed)
    {
      done := w in workflows && workflows[w].status == Completed && !workflows[w].consumed;
      if done {
        workflows := workflows[w := workflows[w].(consumed := true)];
      }
    }

    /** `doa_workflow_reaper`. */
    method ReapWorkflows()
      modifies this
      ensures View() == Next(old(View()), Reap)
    {
      workflows := map w | w in workflows :: Overdue(workflows[w], env.now);
    }

    method CreateMatrix(m: nat, matrix: Matrix) returns (created: bool)
      requires m !in matrices
      modifies this
      ensures View() == Next(old(View()), AuthorityRuns.CreateMatrix(m, matrix)) && created == Admissible(matrix.levels)
    {
      created := Admissible(matrix.levels);
      if created {
        matrices := matrices[m := matrix];
      }
    }

    method UpdateDraftMatrix(m: nat, levels: map<int, Level>) returns (updated: bool)
      modifies this
      ensures View() == Next(old(View()), UpdateDraft(m, levels))
      ensures updated <==> m in old(matrices) && old(matrices[m].status) == Draft && Admissible(levels)
    {
      updated := m in matrices && matrices[m].status == Draft && Admissible(levels);
      if updated {
        matrices := matrices[m := matrices[m].(levels := levels)];
      }
    }

    method ApproveMatrix(m: nat) returns (done: bool)
      modifies this
      ensures View() == Next(old(View()), AuthorityRuns.ApproveMatrix(m))
      ensures done <==> m in old(matrices) && old(matrices[m].status) == Draft
    {
      done := m in matrices && matrices[m].status == Draft;
      if done {
        matrices := matrices[m := matrices[m].(status := Approved)];
      }
    }

    method RevokeMatrix(m: nat) returns (done: bool)
      modifies this
      ensures View() == Next(old(View()), AuthorityRuns.RevokeMatrix(m))
      ensures done <==> m in old(matrices) && old(matrices[m].status) == Approved
    {
      done := m in matrices && matrices[m].status == Approved;
      if done {
        matrices := matrices[m := matrices[m].(status := Revoked)];
      }
    }

    method DeleteDraftMatrix(m: nat) returns (done: bool)
      modifies this
      ensures View() == Next(old(View()), DeleteDraft(m))
      ensures done <==> m in old(matrices) && old(matrices[m].status) == Draft && !InUse(old(View()), m)
    {
      done := m in matrices && matrices[m].status == Draft && !exists w :: w in workflows && workflows[w].matrix == m;
      if done {
        matrices := matrices - {m};
      }
    }
  }
}
