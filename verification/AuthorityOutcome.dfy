/** internal/authority: exactly which step takes a matrix or a workflow to each
    of its states. */
module AuthorityOutcome {
  import opened Text
  import opened Ids
  import opened AuthorityModel
  import opened AuthorityRuns
  import opened AuthorityVotes

  // ---- matrices -------------------------------------------------------------------

  /** A matrix changes in one step if and only if it is a draft that is approved
      or given other admissible levels, or an approved one that is revoked. */
  lemma {:induction false} MatrixChangesIff(st: State, step: Step, m: nat)
    requires m in st.matrices
    ensures var next := Next(st, step);
            && (m !in next.matrices <==>
                step == DeleteDraft(m) && st.matrices[m].status == Draft
                && forall w | w in st.workflows :: st.workflows[w].matrix != m)
            && (m in next.matrices ==>
                var before, after := st.matrices[m], next.matrices[m];
                && (after.status == Approved && before.status != Approved <==>
                    step == ApproveMatrix(m) && before.status == Draft)
                && (after.status == Revoked && before.status != Revoked <==>
                    step == RevokeMatrix(m) && before.status == Approved)
                && (after.status != before.status ==> after.levels == before.levels)
                && (after.levels != before.levels <==>
                    step.UpdateDraft? && step.m == m && before.status == Draft && Admissible(step.levels)
                    && step.levels != before.levels)
                && (after.levels != before.levels ==> after.levels == step.levels && after.status == Draft))
  {
    hide Voted, DecideRefusal, EnvNext, EnvRun, Admissible;
  }

  /** A matrix comes into being only as it was asked for, with admissible levels. */
  lemma {:induction false} MatrixAppearsIff(st: State, step: Step, m: nat)
    requires m !in st.matrices
    ensures m in Next(st, step).matrices <==> step.CreateMatrix? && step.m == m && Admissible(step.matrix.levels)
    ensures m in Next(st, step).matrices ==> Next(st, step).matrices[m] == step.matrix
  {
    hide Voted, DecideRefusal, EnvNext, EnvRun, Admissible;
  }

  /** Levels are admissible if and only if their numbers and thresholds are
      positive and no approver is of a kind that is not supported. */
  lemma {:induction false} AdmissibleIff(levels: map<int, Level>)
    ensures Admissible(levels) <==>
            forall n | n in levels ::
              && n >= 1 && (levels[n].mode.Threshold? ==> levels[n].mode.min >= 1)
              && forall ap | ap in levels[n].approvers :: !ap.Unsupported?
  {
  }

  // ---- votes ----------------------------------------------------------------------------

  /** A vote is accepted if and only if the workflow runs on the level it names,
      the level can be resolved, and the voter is in its pool and has not voted on it. */
  lemma {:induction false} AcceptedIff(st: State, w: nat, n: int, u: Uid)
    ensures DecideRefusal(st, w, n, u) == None <==>
            && w in st.workflows && st.workflows[w].status == Running && st.workflows[w].current == Some(n)
            && st.workflows[w].matrix in st.matrices && n in st.matrices[st.workflows[w].matrix].levels
            && var level := st.matrices[st.workflows[w].matrix].levels[n];
            && FirstFault(st.env, level.approvers) == None && InPool(st.env, level, st.workflows[w].c, u)
            && forall d | d in st.workflows[w].decisions :: d.level != n || d.approver != u
  {
    hide InPool, FirstFault;
  }

  /** What an accepted vote does, in a sound state: it is recorded under the
      surroundings it was cast in; a rejection ends the workflow; an approval
      that leaves the level short changes nothing else; one that makes it enough
      passes the level, and opens the next one or completes the workflow. */
  lemma {:induction false} VoteDoes(
      st: State, w: nat, n: int, u: Uid, approve: bool, between: seq<EnvStep>)
    requires AllSound(st) && DecideRefusal(st, w, n, u) == None
    ensures w in st.workflows && n in st.workflows[w].levels
    ensures var next, wf := Next(st, Decide(w, n, u, approve, between)), st.workflows[w];
            && next.workflows.Keys == st.workflows.Keys && next.matrices == st.matrices
            && (forall v | v in st.workflows && v != w :: next.workflows[v] == st.workflows[v])
            && var after, later := next.workflows[w], EnvRun(st.env, between);
            var people := ApproversOn(after.decisions, n);
            var enough := approve && Enough(wf.levels[n], wf.c.tenant, later, people);
            && next.env == later && after.decisions == wf.decisions + [Decision(n, u, approve, st.env)]
            && after.matrix == wf.matrix && after.levels == wf.levels && after.c == wf.c && after.target == wf.target
            && after.expiresAt == wf.expiresAt && after.consumed == wf.consumed
            && (after.status == Rejected <==> !approve)
            && (after.status == Completed <==> enough && n + 1 !in wf.levels)
            && (after.status == Running <==> approve && !(enough && n + 1 !in wf.levels))
            && after.current == (if after.status != Running then None else if enough then Some(n + 1) else Some(n))
            && after.passes == if enough then wf.passes + [Pass(later, |after.decisions|)] else wf.passes
  {
    hide InPool, FirstFault, Satisfied, Enough, ApproversOn, PassedAt, EnvRun, Admissible;
    Accepted(st, w, n, u);
    var wf := st.workflows[w];
    assert Frozen(st, wf) && Sound(wf);
    var later := EnvRun(st.env, between);
    var after := Voted(wf, wf.levels, n, u, approve, st.env, later);
    VoteCasts(st, w, n, u, approve, later);
    CastOnce(after, |after.decisions|, n);
    assert after.decisions[..|after.decisions|] == after.decisions;
    SatisfiedIsEnough(later, wf.levels[n], wf.c.tenant, after.decisions, n);
  }

  /** A refused vote changes nothing. */
  lemma {:induction false} RefusedDoes(st: State, w: nat, n: int, u: Uid, approve: bool, between: seq<EnvStep>)
    requires DecideRefusal(st, w, n, u).Some?
    ensures Next(st, Decide(w, n, u, approve, between)) == State(EnvRun(st.env, between), st.matrices, st.workflows)
  {
    hide DecideRefusal, EnvRun;
  }

  /** The reason is the first that applies. */
  lemma {:induction false} RefusedFor(st: State, w: nat, n: int, u: Uid)
    ensures DecideRefusal(st, w, n, u) == Some(NotFound) <==> w !in st.workflows
    ensures DecideRefusal(st, w, n, u) == Some(Terminal) <==> w in st.workflows && st.workflows[w].status != Running
    ensures DecideRefusal(st, w, n, u) == Some(WrongLevel) <==>
            && w in st.workflows && st.workflows[w].status == Running && st.workflows[w].current.Some?
            && st.workflows[w].current.value != n
    ensures DecideRefusal(st, w, n, u) == Some(Duplicate) ==>
              exists d :: d in st.workflows[w].decisions && d.level == n && d.approver == u
    ensures DecideRefusal(st, w, n, u) == Some(NotQualified) ==>
              !InPool(st.env, st.matrices[st.workflows[w].matrix].levels[n], st.workflows[w].c, u)
  {
    hide InPool, FirstFault;
  }

  /** The fault reported is that of the first faulty entry: a user that cannot be
      read, a role without a name, or a kind that is not supported. */
  lemma {:induction false} FaultIsFirst(env: Env, aps: seq<Approver>, i: nat)
    requires i < |aps| && FirstFault(env, aps[..i]) == None
    ensures aps[i].User? && env.uuids.parse(aps[i].ref) == None ==> FirstFault(env, aps) == Some(InvalidUser)
    ensures aps[i] == Role("") ==> FirstFault(env, aps) == Some(EmptyRole)
    ensures aps[i] == Unsupported ==> FirstFault(env, aps) == Some(UnsupportedType)
  {
    if i > 0 {
      assert aps[..i][1..] == aps[1..][..i - 1] && aps[..i][0] == aps[0];
      FaultIsFirst(env, aps[1..], i - 1);
    }
  }

  /** What changes around a workflow: roles are given and taken one at a time, a
      delegation is added under a new id, and time goes on. */
  lemma {:induction false} SurroundingsChange(env: Env, e: EnvStep, a: Assignment, id: nat)
    ensures a in EnvNext(env, e).roles <==> e == Grant(a) || (a in env.roles && e != Withdraw(a))
    ensures EnvNext(env, e).now == env.now + (if e.Tick? then e.elapsed else 0)
    ensures id !in env.delegations ==>
              (id in EnvNext(env, e).delegations <==>
               && e.Delegate? && e.id == id && e.d.delegator != e.d.delegatee && e.d.delegator != 0
               && e.d.delegatee != 0 && e.d.active && (e.d.to.Some? ==> e.d.from < e.d.to.value))
    ensures id !in env.delegations && id in EnvNext(env, e).delegations ==> EnvNext(env, e).delegations[id] == e.d
    ensures EnvNext(env, e).uuids == env.uuids
  {
  }

  /** The surroundings change by their own steps and between the reads of a vote,
      and by nothing else; their own steps change no matrix and no workflow. */
  lemma {:induction false} SurroundingsMove(st: State, step: Step)
    ensures var next := Next(st, step);
            && (step.Around? ==> next == st.(env := EnvNext(st.env, step.e)))
            && (step.Decide? ==> next.env == EnvRun(st.env, step.between))
            && (!step.Around? && !step.Decide? ==> next.env == st.env)
  {
    hide Voted, DecideRefusal, EnvNext, EnvRun, Admissible, Busy, Overdue;
  }

  // ---- workflows ----------------------------------------------------------------------------

  /** A workflow appears only by being opened on a matrix with levels, for a
      target that no running workflow has; it starts at level 1 with nothing on it. */
  lemma {:induction false} OpensIff(st: State, step: Step, w: nat)
    requires w !in st.workflows
    ensures w in Next(st, step).workflows <==>
            && step.CreateWorkflow? && step.w == w && step.m in st.matrices && st.matrices[step.m].levels != map[]
            && forall v | v in st.workflows ::
                 st.workflows[v].status != Running || st.workflows[v].target != step.target
    ensures w in Next(st, step).workflows ==>
              Next(st, step).workflows[w] ==
              Workflow(step.m, st.matrices[step.m].levels, step.c, step.target, Running, Some(1), [], [],
                       step.expiresAt, false)
  {
    hide Voted, DecideRefusal, EnvNext, EnvRun, Admissible;
    if step.Decide? && DecideRefusal(st, step.w, step.n, step.approver) == None {
      Accepted(st, step.w, step.n, step.approver);
    }
    if step.CreateWorkflow? && !Busy(st, step.target) {
      forall v | v in st.workflows ensures st.workflows[v].status != Running || st.workflows[v].target != step.target {}
    }
  }

  /** A running workflow is cancelled if and only if that is asked for, and
      expires if and only if it is reaped after its time; nothing else of it changes then. */
  lemma {:induction false} StopsIff(st: State, step: Step, w: nat)
    requires w in st.workflows && st.workflows[w].status == Running
    ensures w in Next(st, step).workflows
    ensures Next(st, step).workflows[w].status == Cancelled <==> step == Cancel(w)
    ensures Next(st, step).workflows[w].status == Expired <==> step.Reap? && st.workflows[w].expiresAt < st.env.now
    ensures Next(st, step).workflows[w].status in {Status.Cancelled, Expired} ==>
              Next(st, step).workflows[w] ==
              st.workflows[w].(status := Next(st, step).workflows[w].status, current := None)
  {
    hide Satisfied, DecideRefusal, EnvNext, EnvRun, Admissible;
  }

  /** A running workflow moves, is rejected or completes only by an accepted vote on it. */
  lemma {:induction false} OnlyVotesMove(st: State, step: Step, w: nat)
    requires w in st.workflows && st.workflows[w].status == Running
    ensures w in Next(st, step).workflows
    ensures Next(st, step).workflows[w] != st.workflows[w] ==>
              || step == Cancel(w) || step.Reap?
              || (step.Decide? && step.w == w && DecideRefusal(st, w, step.n, step.approver) == None)
  {
    hide Voted, EnvNext, EnvRun, Admissible;
  }
}
