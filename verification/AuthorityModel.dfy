/** internal/authority: who may approve. Users and tenants are UUIDs, ordered as
    their bytes are; times are instants. */
module AuthorityModel {
  import opened Ids
  import opened Text

  type Uid = u: nat | u < UUIDS

  /** How UUID text is written and read; reading accepts more forms than are written. */
  datatype Uuids = Uuids(parse: string -> Option<Uid>, text: Uid -> string)

  ghost predicate Lawful(u: Uuids) { forall x: Uid :: u.parse(u.text(x)) == Some(x) }

  /** The text form of every UUID, read with digits of either case. */
  const PLAIN := Uuids((s: string) => ReadUuid(s), (u: Uid) => UuidText(u))

  lemma PlainIsLawful()
    ensures Lawful(PLAIN)
  {
    forall x: Uid ensures PLAIN.parse(PLAIN.text(x)) == Some(x) { UuidTextReads(x); }
  }

  /** An approver entry: a user by UUID text, a role by name, or a type that is not supported yet. */
  datatype Approver = User(ref: string) | Role(name: string) | Unsupported

  datatype Mode = Any | All | Threshold(min: nat)

  datatype Level = Level(mode: Mode, approvers: seq<Approver>)

  /** A role held everywhere, or within one tenant. */
  datatype Assignment = Assignment(user: Uid, role: string, tenant: Option<Uid>)

  datatype Delegation = Delegation(
    delegator: Uid, delegatee: Uid, tenant: Option<Uid>, keys: Option<seq<string>>, maxAmount: Option<int>,
    from: int, to: Option<int>, active: bool)

  /** What approval depends on from outside: roles, delegations and the time. */
  datatype Env = Env(uuids: Uuids, roles: set<Assignment>, delegations: map<nat, Delegation>, now: int)

  /** What a workflow fixes: its tenant, action and amount. */
  datatype Context = Context(tenant: Option<Uid>, action: string, amount: Option<int>)

  /** The role rows the pool query keeps: in a tenant, those of that tenant or of none. */
  predicate InScope(a: Assignment, tenant: Option<Uid>) {
    tenant == None || a.tenant == None || a.tenant == tenant
  }

  predicate HoldsRole(env: Env, u: Uid, name: string, tenant: Option<Uid>) {
    exists a :: a in env.roles && a.user == u && a.role == name && InScope(a, tenant)
  }

  predicate Names(env: Env, ap: Approver, u: Uid, tenant: Option<Uid>) {
    match ap
    case User(ref) => env.uuids.parse(ref) == Some(u)
    case Role(name) => HoldsRole(env, u, name, tenant)
    case Unsupported => false
  }

  predicate NamedBy(env: Env, aps: seq<Approver>, tenant: Option<Uid>, u: Uid) {
    exists ap :: ap in aps && Names(env, ap, u, tenant)
  }

  /** The base pool of a level: the users its entries name. */
  predicate InBase(env: Env, level: Level, tenant: Option<Uid>, u: Uid) { NamedBy(env, level.approvers, tenant, u) }

  predicate Grants(env: Env, d: Delegation, c: Context) {
    && d.active && d.from <= env.now && (d.to == None || d.to.value > env.now)
    && (c.tenant == None || d.tenant == None || d.tenant == c.tenant)
    && (d.keys == None || c.action in d.keys.value)
    && (c.amount == None || d.maxAmount == None || d.maxAmount.value >= c.amount.value)
  }

  /** Membership through one delegation from a user of the base pool. */
  predicate Delegated(env: Env, level: Level, c: Context, u: Uid) {
    exists id :: id in env.delegations && env.delegations[id].delegatee == u && Grants(env, env.delegations[id], c) &&
                 InBase(env, level, c.tenant, env.delegations[id].delegator)
  }

  /** The full pool. */
  predicate InPool(env: Env, level: Level, c: Context, u: Uid) {
    InBase(env, level, c.tenant, u) || Delegated(env, level, c, u)
  }

  /** Why a level cannot be resolved. */
  datatype Fault = InvalidUser | EmptyRole | UnsupportedType

  function FaultOf(env: Env, ap: Approver): Option<Fault> {
    match ap
    case User(ref) => if env.uuids.parse(ref) == None then Some(InvalidUser) else None
    case Role(name) => if name == "" then Some(EmptyRole) else None
    case Unsupported => Some(UnsupportedType)
  }

  /** The fault of the first entry that has one. */
  function FirstFault(env: Env, aps: seq<Approver>): Option<Fault> {
    if aps == [] then None
    else if FaultOf(env, aps[0]).Some? then FaultOf(env, aps[0])
    else FirstFault(env, aps[1..])
  }

  ghost predicate Ascending(s: seq<Uid>) { forall i, j | 0 <= i < j < |s| :: s[i] < s[j] }
}
