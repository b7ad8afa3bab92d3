/** internal/authority/selector.go: resolving the approvers of a level. */
module AuthorityPool {
  import opened Text
  import opened AuthorityModel

  ghost predicate Sorted(s: seq<Uid>) { forall i, j | 0 <= i < j < |s| :: s[i] <= s[j] }

  /** Sinks element `i` into the sorted part before it. */
  method Sink(a: array<Uid>, i: nat)
    requires i < a.Length && Sorted(a[..i])
    modifies a
    ensures Sorted(a[..i + 1]) && multiset(a[..]) == multiset(old(a[..]))
  {
    var j := i;
    while j > 0 && a[j] < a[j - 1]
      invariant 0 <= j <= i
      invariant forall k, l | 0 <= k < l <= i && l != j :: a[k] <= a[l]
      invariant multiset(a[..]) == multiset(old(a[..]))
    {
      a[j], a[j - 1] := a[j - 1], a[j];
      j := j - 1;
    }
  }

  /** `sortUUIDs`: insertion sort in place. */
  method SortUuids(a: array<Uid>)
    modifies a
    ensures Sorted(a[..]) && multiset(a[..]) == multiset(old(a[..]))
  {
    var i := 1;
    while i < a.Length
      invariant 1 <= i && (i <= a.Length || a.Length == 0)
      invariant i <= a.Length ==> Sorted(a[..i])
      invariant multiset(a[..]) == multiset(old(a[..]))
    {
      Sink(a, i);
      i := i + 1;
    }
    assert a.Length > 0 ==> a[..a.Length] == a[..];
  }

  predicate NoRepeat(s: seq<Uid>) { forall i, j | 0 <= i < j < |s| :: s[i] != s[j] }

  /** Sorting a list without repeats gives its users in ascending order. */
  method SortedCopy(s: seq<Uid>) returns (r: seq<Uid>)
    requires NoRepeat(s)
    ensures Ascending(r) && forall u :: u in r <==> u in s
  {
    var a := new Uid[|s|](i requires 0 <= i < |s| => s[i]);
    assert a[..] == s;
    SortUuids(a);
    r := a[..];
    MembersOf(r, s);
    NoRepeatIsMultiplicity(s);
    assert multiset(r) == multiset(s);
    forall i, j | 0 <= i < j < |r| ensures r[i] < r[j] {
      if r[i] == r[j] { TwiceIn(r, i, j); }
    }
  }

  lemma MembersOf(r: seq<Uid>, s: seq<Uid>)
    requires multiset(r) == multiset(s)
    ensures forall u :: u in r <==> u in s
  {
    assert forall u :: u in r <==> u in multiset(r);
    assert forall u :: u in s <==> u in multiset(s);
  }

  lemma {:induction false} NoRepeatIsMultiplicity(s: seq<Uid>)
    requires NoRepeat(s)
    ensures forall u :: multiset(s)[u] <= 1
  {
    if s != [] {
      NoRepeatIsMultiplicity(s[1..]);
      assert s == [s[0]] + s[1..];
      assert s[0] !in s[1..];
    }
  }

  lemma TwiceIn(r: seq<Uid>, i: nat, j: nat)
    requires i < j < |r| && r[i] == r[j]
    ensures multiset(r)[r[i]] >= 2
  {
    assert r == r[..j] + r[j..];
    assert r[i] in r[..j] && r[j] in r[j..];
    assert multiset(r) == multiset(r[..j]) + multiset(r[j..]);
  }

  /** `usersWithRole`, in any order. */
  function UsersWithRole(env: Env, name: string, tenant: Option<Uid>): set<Uid> {
    set a | a in env.roles && a.role == name && InScope(a, tenant) :: a.user
  }

  method Collect(out: seq<Uid>, more: set<Uid>) returns (r: seq<Uid>)
    requires NoRepeat(out)
    ensures NoRepeat(r) && forall u :: u in r <==> u in out || u in more
  {
    r := out;
    var rest := more;
    while rest != {}
      invariant rest <= more && NoRepeat(r)
      invariant forall u :: u in r <==> u in out || u in more - rest
    {
      var u :| u in rest;
      if u !in r {
        r := r + [u];
      }
      rest := rest - {u};
    }
  }

  /** The base pool, ascending and without repeats, or the fault of the first faulty entry. */
  method ResolveApprovers(env: Env, level: Level, tenant: Option<Uid>) returns (r: Result<seq<Uid>, Fault>)
    ensures FirstFault(env, level.approvers).Some? ==> r == Err(FirstFault(env, level.approvers).value)
    ensures FirstFault(env, level.approvers).None? ==>
              (r.Ok? && Ascending(r.value) && forall u :: u in r.value <==> InBase(env, level, tenant, u))
  {
    hide HoldsRole, Ascending, NamedBy;
    NobodyYet(env, tenant);
    var out: seq<Uid> := [];
    var aps := level.approvers;
    for i := 0 to |aps|
      invariant FirstFault(env, aps) == FirstFault(env, aps[i..])
      invariant NoRepeat(out)
      invariant forall u :: u in out <==> NamedBy(env, aps[..i], tenant, u)
    {
      var ap := aps[i];
      assert aps[i..][0] == ap && aps[i..][1..] == aps[i + 1..];
      OneMore(env, aps, i, tenant);
      ghost var was := out;
      match ap {
        case User(ref) =>
          var parsed := env.uuids.parse(ref);
          if parsed == None {
            return Err(InvalidUser);
          }
          if parsed.value !in out {
            out := out + [parsed.value];
          }
        case Role(name) =>
          if name == "" {
            return Err(EmptyRole);
          }
          RoleUsers(env, name, tenant);
          out := Collect(out, UsersWithRole(env, name, tenant));
        case Unsupported => return Err(UnsupportedType);
      }
      assert forall u :: u in out <==> u in was || Names(env, ap, u, tenant);
    }
    assert aps[..|aps|] == aps;
    out := SortedCopy(out);
    r := Ok(out);
  }

  lemma NobodyYet(env: Env, tenant: Option<Uid>)
    ensures forall u :: !NamedBy(env, [], tenant, u)
  {
  }

  lemma OneMore(env: Env, aps: seq<Approver>, i: nat, tenant: Option<Uid>)
    requires i < |aps|
    ensures forall u :: NamedBy(env, aps[..i + 1], tenant, u) <==>
                        NamedBy(env, aps[..i], tenant, u) || Names(env, aps[i], u, tenant)
  {
    assert aps[..i + 1] == aps[..i] + [aps[i]];
  }

  lemma RoleUsers(env: Env, name: string, tenant: Option<Uid>)
    ensures forall u :: u in UsersWithRole(env, name, tenant) <==> HoldsRole(env, u, name, tenant)
  {
  }

  /** The delegatees of a pool. */
  function Delegatees(env: Env, base: seq<Uid>, c: Context): set<Uid> {
    set id | id in env.delegations && env.delegations[id].delegator in base && Grants(env, env.delegations[id], c) ::
      env.delegations[id].delegatee
  }

  /** The full pool: the base pool and, one hop further, those its members delegate to. */
  method ResolveApproversWithDelegation(env: Env, level: Level, c: Context) returns (r: Result<seq<Uid>, Fault>)
    ensures FirstFault(env, level.approvers).Some? ==> r == Err(FirstFault(env, level.approvers).value)
    ensures FirstFault(env, level.approvers).None? ==>
              (r.Ok? && Ascending(r.value) && forall u :: u in r.value <==> InPool(env, level, c, u))
  {
    hide InBase, Grants, FirstFault;
    r := ResolveApprovers(env, level, c.tenant);
    if r.Err? || r.value == [] {
      return;
    }
    var base := r.value;
    assert forall u :: u in Delegatees(env, base, c) <==> Delegated(env, level, c, u);
    var all := Collect(base, Delegatees(env, base, c));
    all := SortedCopy(all);
    r := Ok(all);
  }
}
