/** internal/authority/workflow.go: the inbox query against the pool that votes are checked with. */
module AuthorityInbox {
  import opened Text
  import opened AuthorityModel
  import opened AuthorityRuns
  import opened Ids

  /** The query's test of one approver entry for one user: UUID text compared as
      text, and role rows of every tenant. */
  predicate Matches(env: Env, ap: Approver, u: Uid) {
    match ap
    case User(ref) => ref == env.uuids.text(u)
    case Role(name) => HoldsRole(env, u, name, None)
    case Unsupported => false
  }

  predicate Through(env: Env, ap: Approver, c: Context, u: Uid) {
    exists id :: id in env.delegations && env.delegations[id].delegatee == u && Grants(env, env.delegations[id], c) &&
                 Matches(env, ap, env.delegations[id].delegator)
  }

  predicate Awaits(env: Env, level: Level, c: Context, u: Uid) {
    exists ap :: ap in level.approvers && (Matches(env, ap, u) || Through(env, ap, c, u))
  }

  predicate Decided(wf: Workflow, n: int, u: Uid) {
    exists i :: 0 <= i < |wf.decisions| && wf.decisions[i].level == n && wf.decisions[i].approver == u
  }

  /** `ListWorkflowsForApprover`, before its limit of 100. */
  predicate InInbox(st: State, w: nat, u: Uid) {
    && w in st.workflows && st.workflows[w].status == Running && st.workflows[w].current.Some?
    && var wf := st.workflows[w];
    && wf.matrix in st.matrices && wf.current.value in st.matrices[wf.matrix].levels
    && Awaits(st.env, st.matrices[wf.matrix].levels[wf.current.value], wf.c, u)
    && !Decided(wf, wf.current.value, u)
  }

  /** User references in the one form that UUIDs are written in. */
  ghost predicate Canonical(env: Env, level: Level) {
    Lawful(env.uuids) &&
    forall ap | ap in level.approvers && ap.User? ::
      env.uuids.parse(ap.ref) == None || ap.ref == env.uuids.text(env.uuids.parse(ap.ref).value)
  }

  /** The same surroundings with every role assignment made site-wide. */
  function Sitewide(env: Env): Env {
    env.(roles := set a | a in env.roles :: a.(tenant := None))
  }

  lemma {:induction false} SitewideHolds(env: Env, u: Uid, name: string, tenant: Option<Uid>)
    ensures HoldsRole(Sitewide(env), u, name, tenant) <==> HoldsRole(env, u, name, None)
  {
    if HoldsRole(env, u, name, None) {
      var a :| a in env.roles && a.user == u && a.role == name;
      assert a.(tenant := None) in Sitewide(env).roles;
    }
  }

  lemma {:induction false} MatchesIsSitewide(env: Env, level: Level, ap: Approver, u: Uid, tenant: Option<Uid>)
    requires Canonical(env, level) && ap in level.approvers
    ensures Matches(env, ap, u) <==> Names(Sitewide(env), ap, u, tenant)
  {
    if ap.Role? { SitewideHolds(env, u, ap.name, tenant); }
  }

  /** Only running workflows are shown, on their current level, to those who have not voted on it. */
  lemma {:induction false} ShownOnlyWhileRunning(st: State, w: nat, u: Uid)
    ensures InInbox(st, w, u) ==>
              && w in st.workflows && st.workflows[w].status == Running
              && forall d | d in st.workflows[w].decisions ::
                   Some(d.level) != st.workflows[w].current || d.approver != u
  {
    hide Awaits;
    if InInbox(st, w, u) {
      forall d | d in st.workflows[w].decisions ensures Some(d.level) != st.workflows[w].current || d.approver != u {
        var i :| 0 <= i < |st.workflows[w].decisions| && st.workflows[w].decisions[i] == d;
      }
    }
  }

  /** The inbox is the pool that would result if every role assignment were site-wide. */
  lemma {:induction false} InboxIsSitewidePool(env: Env, level: Level, c: Context, u: Uid)
    requires Canonical(env, level)
    ensures Awaits(env, level, c, u) <==> InPool(Sitewide(env), level, c, u)
  {
    hide Matches, Names, Grants, HoldsRole, Canonical;
    var wide := Sitewide(env);
    forall ap, x: Uid | ap in level.approvers ensures Matches(env, ap, x) <==> Names(wide, ap, x, c.tenant) {
      MatchesIsSitewide(env, level, ap, x, c.tenant);
    }
    forall d ensures Grants(wide, d, c) <==> Grants(env, d, c) { GrantsIgnoresRoles(env, d, c); }
    if Awaits(env, level, c, u) {
      var ap :| ap in level.approvers && (Matches(env, ap, u) || Through(env, ap, c, u));
      if Matches(env, ap, u) {
        assert Names(wide, ap, u, c.tenant);
      } else {
        var id :| id in env.delegations && env.delegations[id].delegatee == u && Grants(env, env.delegations[id], c) &&
            Matches(env, ap, env.delegations[id].delegator);
        assert InBase(wide, level, c.tenant, wide.delegations[id].delegator);
      }
    }
    if InBase(wide, level, c.tenant, u) {
      var ap :| ap in level.approvers && Names(wide, ap, u, c.tenant);
      assert Matches(env, ap, u);
    } else if Delegated(wide, level, c, u) {
      var id :| id in wide.delegations && wide.delegations[id].delegatee == u &&
          Grants(wide, wide.delegations[id], c) && InBase(wide, level, c.tenant, wide.delegations[id].delegator);
      var ap :| ap in level.approvers && Names(wide, ap, wide.delegations[id].delegator, c.tenant);
      assert Matches(env, ap, env.delegations[id].delegator);
      assert Through(env, ap, c, u);
    }
  }

  lemma GrantsIgnoresRoles(env: Env, d: Delegation, c: Context)
    ensures Grants(Sitewide(env), d, c) <==> Grants(env, d, c)
  {
  }

  lemma {:induction false} WideBase(env: Env, level: Level, tenant: Option<Uid>, u: Uid)
    requires InBase(env, level, tenant, u)
    ensures InBase(Sitewide(env), level, tenant, u)
  {
    var ap :| ap in level.approvers && Names(env, ap, u, tenant);
    if ap.Role? { SitewideHolds(env, u, ap.name, tenant); }
    assert Names(Sitewide(env), ap, u, tenant);
  }

  lemma {:induction false} WidePool(env: Env, level: Level, c: Context, u: Uid)
    requires InPool(env, level, c, u)
    ensures InPool(Sitewide(env), level, c, u)
  {
    hide InBase, Grants;
    if InBase(env, level, c.tenant, u) {
      WideBase(env, level, c.tenant, u);
    } else {
      var id :| id in env.delegations && env.delegations[id].delegatee == u && Grants(env, env.delegations[id], c) &&
          InBase(env, level, c.tenant, env.delegations[id].delegator);
      WideBase(env, level, c.tenant, env.delegations[id].delegator);
      GrantsIgnoresRoles(env, env.delegations[id], c);
      assert id in Sitewide(env).delegations;
    }
  }

  /** Whoever may vote on a workflow now finds it in the inbox. */
  lemma {:induction false} InboxCoversPool(st: State, w: nat, n: int, u: Uid)
    requires DecideRefusal(st, w, n, u) == None
    requires Canonical(st.env, st.matrices[st.workflows[w].matrix].levels[n])
    ensures InInbox(st, w, u)
  {
    hide Awaits, InPool, FirstFault, Canonical;
    var wf := st.workflows[w];
    var level := st.matrices[wf.matrix].levels[n];
    WidePool(st.env, level, wf.c, u);
    InboxIsSitewidePool(st.env, level, wf.c, u);
  }

  // Exactly when the inbox and the vote agree

  /** A running workflow on a level that its matrix declares. */
  ghost predicate Ready(st: State, w: nat) {
    && w in st.workflows && st.workflows[w].status == Running && st.workflows[w].current.Some?
    && st.workflows[w].matrix in st.matrices
    && st.workflows[w].current.value in st.matrices[st.workflows[w].matrix].levels
  }

  ghost function LevelOf(st: State, w: nat): Level
    requires Ready(st, w)
  {
    st.matrices[st.workflows[w].matrix].levels[st.workflows[w].current.value]
  }

  ghost predicate MayVote(st: State, w: nat, u: Uid)
    requires Ready(st, w)
  {
    DecideRefusal(st, w, st.workflows[w].current.value, u) == None
  }

  ghost predicate HasVoted(st: State, w: nat, u: Uid)
    requires Ready(st, w)
  {
    Decided(st.workflows[w], st.workflows[w].current.value, u)
  }

  /** `u` is `x`, or one of those `x` delegates to. */
  ghost predicate ActsFor(env: Env, c: Context, u: Uid, x: Uid) {
    u == x || exists id :: id in env.delegations && env.delegations[id].delegatee == u
                           && Grants(env, env.delegations[id], c) && env.delegations[id].delegator == x
  }

  /** A role row the query counts for the level and the vote does not. */
  ghost predicate Foreign(level: Level, tenant: Option<Uid>, a: Assignment) {
    Role(a.role) in level.approvers && !InScope(a, tenant)
  }

  /** A user reference that the vote can read and the query does not recognise. */
  ghost predicate Unusual(env: Env, level: Level, ref: string) {
    User(ref) in level.approvers && env.uuids.parse(ref).Some? && ref != env.uuids.text(env.uuids.parse(ref).value)
  }

  /** Whoever a foreign role row brings in has voted, or is in the pool all the same. */
  ghost predicate StrangersSettled(st: State, w: nat)
    requires Ready(st, w)
  {
    var env, level, c := st.env, LevelOf(st, w), st.workflows[w].c;
    forall a, u: Uid | a in env.roles && Foreign(level, c.tenant, a) && ActsFor(env, c, u, a.user) ::
      HasVoted(st, w, u) || InPool(env, level, c, u)
  }

  /** Whoever an unusual reference brings in has voted, or is found by another entry. */
  ghost predicate FormsSettled(st: State, w: nat)
    requires Ready(st, w)
  {
    var env, level, c := st.env, LevelOf(st, w), st.workflows[w].c;
    forall ref, u: Uid | Unusual(env, level, ref) && ActsFor(env, c, u, env.uuids.parse(ref).value) ::
      HasVoted(st, w, u) || Awaits(env, level, c, u)
  }

  lemma {:induction false} PoolActs(env: Env, level: Level, c: Context, u: Uid)
    ensures InPool(env, level, c, u) <==> exists x: Uid :: InBase(env, level, c.tenant, x) && ActsFor(env, c, u, x)
  {
    hide InBase, Grants;
    if InPool(env, level, c, u) && !InBase(env, level, c.tenant, u) {
      var id :| id in env.delegations && env.delegations[id].delegatee == u && Grants(env, env.delegations[id], c) &&
          InBase(env, level, c.tenant, env.delegations[id].delegator);
      assert ActsFor(env, c, u, env.delegations[id].delegator);
    }
    if InBase(env, level, c.tenant, u) { assert ActsFor(env, c, u, u); }
  }

  ghost predicate Listed(env: Env, level: Level, x: Uid) { exists ap :: ap in level.approvers && Matches(env, ap, x) }

  lemma {:induction false} AwaitsActs(env: Env, level: Level, c: Context, u: Uid)
    ensures Awaits(env, level, c, u) <==> exists x: Uid :: Listed(env, level, x) && ActsFor(env, c, u, x)
  {
    hide Matches, Grants;
    if Awaits(env, level, c, u) {
      var ap :| ap in level.approvers && (Matches(env, ap, u) || Through(env, ap, c, u));
      if Matches(env, ap, u) {
        assert Listed(env, level, u) && ActsFor(env, c, u, u);
      } else {
        var id :| id in env.delegations && env.delegations[id].delegatee == u && Grants(env, env.delegations[id], c) &&
            Matches(env, ap, env.delegations[id].delegator);
        assert Listed(env, level, env.delegations[id].delegator) && ActsFor(env, c, u, env.delegations[id].delegator);
      }
    }
    forall x: Uid | Listed(env, level, x) && ActsFor(env, c, u, x) ensures Awaits(env, level, c, u) {
      var ap :| ap in level.approvers && Matches(env, ap, x);
      assert u == x || Through(env, ap, c, u);
    }
  }

  /** The query lists a user outside the base pool only for a foreign role row. */
  lemma {:induction false} ListedIff(env: Env, level: Level, tenant: Option<Uid>, x: Uid)
    requires Lawful(env.uuids)
    ensures Listed(env, level, x) && !InBase(env, level, tenant, x) ==>
              exists a :: a in env.roles && a.user == x && Foreign(level, tenant, a)
    ensures InBase(env, level, tenant, x) && !Listed(env, level, x) ==>
              exists ref :: Unusual(env, level, ref) && env.uuids.parse(ref) == Some(x)
    ensures forall a | a in env.roles && a.user == x && Foreign(level, tenant, a) :: Listed(env, level, x)
    ensures forall ref | Unusual(env, level, ref) && env.uuids.parse(ref) == Some(x) :: InBase(env, level, tenant, x)
  {
    if Listed(env, level, x) && !InBase(env, level, tenant, x) {
      var ap :| ap in level.approvers && Matches(env, ap, x);
      assert !Names(env, ap, x, tenant);
      var a :| a in env.roles && a.user == x && a.role == ap.name;
      assert Foreign(level, tenant, a);
    }
    if InBase(env, level, tenant, x) && !Listed(env, level, x) {
      var ap :| ap in level.approvers && Names(env, ap, x, tenant);
      assert !Matches(env, ap, x);
      assert ap.User? && Unusual(env, level, ap.ref);
    }
    forall a | a in env.roles && a.user == x && Foreign(level, tenant, a) ensures Listed(env, level, x) {
      assert Matches(env, Role(a.role), x);
    }
    forall ref | Unusual(env, level, ref) && env.uuids.parse(ref) == Some(x) ensures InBase(env, level, tenant, x) {
      assert Names(env, User(ref), x, tenant);
    }
  }

  lemma {:induction false} VoteIff(st: State, w: nat, u: Uid)
    requires Ready(st, w)
    ensures InInbox(st, w, u) <==> Awaits(st.env, LevelOf(st, w), st.workflows[w].c, u) && !HasVoted(st, w, u)
    ensures MayVote(st, w, u) <==>
              FirstFault(st.env, LevelOf(st, w).approvers) == None
              && InPool(st.env, LevelOf(st, w), st.workflows[w].c, u) && !HasVoted(st, w, u)
  {
    hide Awaits, InPool, FirstFault;
    var wf, n := st.workflows[w], st.workflows[w].current.value;
    assert Decided(wf, n, u) <==> exists d :: d in wf.decisions && d.level == n && d.approver == u;
  }

  /** The inbox shows the workflow to nobody whose vote would be refused if and
      only if every entry can be read and those whom role rows of other tenants
      bring in are settled, or, where some entry cannot be read and so nobody may
      vote, whoever it could be shown to has voted. */
  lemma {:induction false} NoneShownWronglyIff(st: State, w: nat)
    requires Ready(st, w) && Lawful(st.env.uuids)
    ensures (forall u: Uid :: InInbox(st, w, u) ==> MayVote(st, w, u)) <==>
            if FirstFault(st.env, LevelOf(st, w).approvers) == None then StrangersSettled(st, w)
            else forall u: Uid | Awaits(st.env, LevelOf(st, w), st.workflows[w].c, u) :: HasVoted(st, w, u)
  {
    hide Awaits, InPool, FirstFault, Foreign, ActsFor, HasVoted, MayVote, InInbox, Listed, InBase, Lawful;
    var env, level, c := st.env, LevelOf(st, w), st.workflows[w].c;
    forall u: Uid ensures InInbox(st, w, u) <==> Awaits(env, level, c, u) && !HasVoted(st, w, u)
      ensures MayVote(st, w, u) <==>
                FirstFault(env, level.approvers) == None && InPool(env, level, c, u) && !HasVoted(st, w, u)
    {
      VoteIff(st, w, u);
    }
    forall a, u: Uid | a in env.roles && Foreign(level, c.tenant, a) && ActsFor(env, c, u, a.user)
      ensures Awaits(env, level, c, u)
    {
      ListedIff(env, level, c.tenant, a.user);
      AwaitsActs(env, level, c, u);
    }
    forall u: Uid | Awaits(env, level, c, u) && !InPool(env, level, c, u)
      ensures exists a :: a in env.roles && Foreign(level, c.tenant, a) && ActsFor(env, c, u, a.user)
    {
      AwaitsActs(env, level, c, u);
      PoolActs(env, level, c, u);
      var x: Uid :| Listed(env, level, x) && ActsFor(env, c, u, x);
      ListedIff(env, level, c.tenant, x);
    }
  }

  /** The inbox misses nobody whose vote would be accepted if and only if some
      entry cannot be read, or those whom unusual references bring in are settled. */
  lemma {:induction false} NoneMissedIff(st: State, w: nat)
    requires Ready(st, w) && Lawful(st.env.uuids)
    ensures (forall u: Uid :: MayVote(st, w, u) ==> InInbox(st, w, u)) <==>
            FirstFault(st.env, LevelOf(st, w).approvers).Some? || FormsSettled(st, w)
  {
    hide Awaits, InPool, FirstFault, ActsFor, HasVoted, MayVote, InInbox, Listed, InBase, Lawful;
    var env, level, c := st.env, LevelOf(st, w), st.workflows[w].c;
    forall u: Uid ensures InInbox(st, w, u) <==> Awaits(env, level, c, u) && !HasVoted(st, w, u)
      ensures MayVote(st, w, u) <==>
                FirstFault(env, level.approvers) == None && InPool(env, level, c, u) && !HasVoted(st, w, u)
    {
      VoteIff(st, w, u);
    }
    forall ref, u: Uid | Unusual(env, level, ref) && ActsFor(env, c, u, env.uuids.parse(ref).value)
      ensures InPool(env, level, c, u)
    {
      ListedIff(env, level, c.tenant, env.uuids.parse(ref).value);
      PoolActs(env, level, c, u);
    }
    forall u: Uid | InPool(env, level, c, u) && !Awaits(env, level, c, u)
      ensures exists ref :: Unusual(env, level, ref) && ActsFor(env, c, u, env.uuids.parse(ref).value)
    {
      AwaitsActs(env, level, c, u);
      PoolActs(env, level, c, u);
      var x: Uid :| InBase(env, level, c.tenant, x) && ActsFor(env, c, u, x);
      ListedIff(env, level, c.tenant, x);
    }
  }

  /** In particular the inbox holds exactly what the user may vote on when every
      entry can be read and is written in the usual form, and role rows of other
      tenants add nobody to the base pool. */
  lemma {:induction false} InboxIsExact(st: State, w: nat, u: Uid)
    requires Ready(st, w) && Canonical(st.env, LevelOf(st, w)) && FirstFault(st.env, LevelOf(st, w).approvers) == None
    requires forall a | a in st.env.roles && Foreign(LevelOf(st, w), st.workflows[w].c.tenant, a) ::
               InBase(st.env, LevelOf(st, w), st.workflows[w].c.tenant, a.user)
    ensures InInbox(st, w, u) <==> MayVote(st, w, u)
  {
    hide Awaits, InPool, FirstFault, Foreign, ActsFor, HasVoted, MayVote, InInbox, Listed, InBase;
    var env, level, c := st.env, LevelOf(st, w), st.workflows[w].c;
    forall a, v: Uid | a in env.roles && Foreign(level, c.tenant, a) && ActsFor(env, c, v, a.user)
      ensures InPool(env, level, c, v)
    {
      PoolActs(env, level, c, v);
    }
    NoneShownWronglyIff(st, w);
    NoneMissedIff(st, w);
  }

  /** A role held in another tenant shows a workflow in the inbox that the vote then refuses. */
  lemma StrangerInInbox(uuids: Uuids, u: Uid, t: Uid, other: Uid, c: Context)
    requires t != other && c.tenant == Some(t)
    ensures var env := Env(uuids, {Assignment(u, "editor", Some(other))}, map[], 0);
            var level := Level(Any, [Role("editor")]);
            Awaits(env, level, c, u) && !InPool(env, level, c, u)
  {
    var a := Assignment(u, "editor", Some(other));
    var env := Env(uuids, {a}, map[], 0);
    assert a in env.roles && InScope(a, None);
    assert Matches(env, Role("editor"), u);
    assert Role("editor") in [Role("editor")];
  }

  /** One reference that is no UUID at all: the workflow is shown, and nobody may vote on it. */
  lemma UnreadableEntryInInbox(u: Uid, c: Context)
    ensures var env := Env(PLAIN, {Assignment(u, "editor", None)}, map[], 0);
            var level := Level(Any, [Role("editor"), User("somebody")]);
            Awaits(env, level, c, u) && FirstFault(env, level.approvers) == Some(InvalidUser)
  {
    var env := Env(PLAIN, {Assignment(u, "editor", None)}, map[], 0);
    var aps := [Role("editor"), User("somebody")];
    assert Assignment(u, "editor", None) in env.roles;
    assert Matches(env, aps[0], u) && aps[0] in aps;
    assert ReadUuid("somebody") == None;
    assert aps[1..] == [User("somebody")] && FaultOf(env, aps[1]) == Some(InvalidUser);
    assert FirstFault(env, aps[1..]) == Some(InvalidUser);
  }

  /** User 10, written with a capital digit. */
  const CAPITAL := Grouped(ZEROS + "A")

  const ZEROS := "0000000000000000000000000000000"

  /** A user reference in capitals is in the pool but never in the inbox. */
  lemma {:induction false} CapitalsAreMissed(c: Context)
    ensures var env, level := Env(PLAIN, {}, map[], 0), Level(Any, [User(CAPITAL)]);
            Lawful(PLAIN) && InPool(env, level, c, 10) && !Awaits(env, level, c, 10)
  {
    hide ReadUuid, UuidText;
    var env, level := Env(PLAIN, {}, map[], 0), Level(Any, [User(CAPITAL)]);
    PlainIsLawful();
    CapitalReads();
    assert User(CAPITAL) in level.approvers && Names(env, User(CAPITAL), 10, c.tenant);
  }

  lemma {:induction false} CapitalReads()
    ensures ReadUuid(CAPITAL) == Some(10) && CAPITAL != UuidText(10)
  {
    hide HexNumber, Hex, Grouped;
    GroupedReads(ZEROS + "A");
    LastDigit(ZEROS, 'A');
    LastOfHex(10, 31);
    GroupedEnds(ZEROS + "A");
    GroupedEnds(Hex(10, 32));
  }

  lemma {:induction false} LastDigit(zeros: string, d: char)
    requires (forall i | 0 <= i < |zeros| :: zeros[i] == '0') && HexValue(d).Some?
    ensures HexNumber(zeros + [d]) == HexValue(d)
  {
    var s := zeros + [d];
    assert s[..|s| - 1] == zeros;
    if zeros != "" {
      LastDigit(zeros[..|zeros| - 1], '0');
      assert zeros[..|zeros| - 1] + ['0'] == zeros;
    }
  }

  lemma LastOfHex(n: nat, width: nat)
    requires n < 16
    ensures Hex(n, width + 1)[width] == HEX[n]
  {
  }
}
