/** internal/authority: which delegations and which role rows count. */
module AuthorityGrants {
  import opened Text
  import opened Ids
  import opened AuthorityModel
  import opened AuthorityRuns

  /** Why a delegation does not count for a workflow: it was ended, has not begun
      or is over, belongs to another tenant, leaves out the action, or stops
      short of the amount. */
  ghost predicate Refused(d: Delegation, now: int, c: Context) {
    || !d.active || now < d.from || (d.to.Some? && d.to.value <= now)
    || (c.tenant.Some? && d.tenant.Some? && c.tenant.value != d.tenant.value)
    || (d.keys.Some? && c.action !in d.keys.value)
    || (c.amount.Some? && d.maxAmount.Some? && d.maxAmount.value < c.amount.value)
  }

  /** A delegation adds its delegatee to a pool if and only if none of this is
      so and its delegator is in the base pool. */
  lemma {:induction false} DelegationCounts(env: Env, level: Level, c: Context, u: Uid)
    ensures InPool(env, level, c, u) <==>
            || InBase(env, level, c.tenant, u)
            || exists id :: id in env.delegations && env.delegations[id].delegatee == u
                            && !Refused(env.delegations[id], env.now, c)
                            && InBase(env, level, c.tenant, env.delegations[id].delegator)
  {
    hide InBase;
    forall id | id in env.delegations
      ensures Grants(env, env.delegations[id], c) <==> !Refused(env.delegations[id], env.now, c)
    {
    }
  }

  /** Taking away a delegation that is refused leaves every pool as it is. */
  lemma {:induction false} RefusedAddsNobody(env: Env, level: Level, c: Context, id: nat, u: Uid)
    requires id in env.delegations && Refused(env.delegations[id], env.now, c)
    ensures InPool(env, level, c, u) <==> InPool(env.(delegations := env.delegations - {id}), level, c, u)
  {
    hide InPool, Refused, InBase;
    var less := env.(delegations := env.delegations - {id});
    DelegationCounts(env, level, c, u);
    DelegationCounts(less, level, c, u);
    forall x: Uid ensures InBase(env, level, c.tenant, x) <==> InBase(less, level, c.tenant, x) {
      SameBase(env, less, level, c.tenant, x);
    }
    assert forall i :: i in less.delegations ==> i in env.delegations && less.delegations[i] == env.delegations[i];
    forall i | i in env.delegations && !Refused(env.delegations[i], env.now, c)
      ensures i in less.delegations && less.delegations[i] == env.delegations[i]
    {
    }
  }

  lemma SameBase(env: Env, less: Env, level: Level, tenant: Option<Uid>, u: Uid)
    requires less == env.(delegations := less.delegations)
    ensures InBase(env, level, tenant, u) <==> InBase(less, level, tenant, u)
  {
    forall ap ensures Names(env, ap, u, tenant) <==> Names(less, ap, u, tenant) {}
  }

  /** A role names a user if and only if the user has it everywhere or in the
      workflow's own tenant; for a workflow of no tenant any row will do. */
  lemma {:induction false} RoleNamesIff(env: Env, name: string, u: Uid, tenant: Option<Uid>)
    ensures Names(env, Role(name), u, tenant) <==>
            || Assignment(u, name, None) in env.roles
            || (tenant.Some? && Assignment(u, name, tenant) in env.roles)
            || (tenant == None && exists t :: Assignment(u, name, t) in env.roles)
  {
    if HoldsRole(env, u, name, tenant) {
      var a :| a in env.roles && a.user == u && a.role == name && InScope(a, tenant);
      assert a == Assignment(u, name, a.tenant);
    }
    if Assignment(u, name, None) in env.roles { assert InScope(Assignment(u, name, None), tenant); }
    if tenant.Some? && Assignment(u, name, tenant) in env.roles { assert InScope(Assignment(u, name, tenant), tenant); }
    if tenant == None && exists t :: Assignment(u, name, t) in env.roles {
      var t :| Assignment(u, name, t) in env.roles;
      assert InScope(Assignment(u, name, t), tenant);
    }
  }

  /** A level is resolved if and only if every entry is a readable user or a named role. */
  lemma {:induction false} ResolvableIff(env: Env, aps: seq<Approver>)
    ensures FirstFault(env, aps) == None <==>
            forall ap | ap in aps :: (ap.User? && env.uuids.parse(ap.ref).Some?) || (ap.Role? && ap.name != "")
  {
    if aps != [] {
      ResolvableIff(env, aps[1..]);
      assert forall ap :: ap in aps <==> ap == aps[0] || ap in aps[1..];
    }
  }

  // ---- delegations over time -----------------------------------------------------------

  /** Between two different, named users, and over a window that goes forward. */
  ghost predicate Proper(d: Delegation) {
    d.delegator != d.delegatee && d.delegator != 0 && d.delegatee != 0 && (d.to.Some? ==> d.from < d.to.value)
  }

  /** Every delegation there ever is was made between two different, named users. */
  lemma {:induction false} DelegationsAreProper(env: Env, es: seq<EnvStep>, id: nat)
    requires forall i | i in env.delegations :: Proper(env.delegations[i])
    ensures id in EnvRun(env, es).delegations ==> Proper(EnvRun(env, es).delegations[id])
  {
    if es != [] { DelegationsAreProper(env, es[..|es| - 1], id); }
  }

  /** A step of the surroundings makes a delegation inactive if and only if it
      revokes it, or reaps it after its window. */
  lemma {:induction false} EndsIff(env: Env, e: EnvStep, id: nat)
    requires id in env.delegations && env.delegations[id].active
    ensures id in EnvNext(env, e).delegations
    ensures !EnvNext(env, e).delegations[id].active <==>
            || e == EndDelegation(id)
            || (e.ReapDelegations? && env.delegations[id].to.Some? && env.delegations[id].to.value < env.now)
    ensures EnvNext(env, e).delegations[id].(active := true) == env.delegations[id]
  {
  }
}
