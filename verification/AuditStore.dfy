/** internal/audit/audit.go and store.go: the writers and verifiers of a running process. */
module AuditStore {
  import opened Text
  import opened AuditJson
  import opened AuditRow
  import opened Ids
  import opened AuditChain
  import opened AuditSystem

  /** An event of the legacy log; payloads are already redacted. */
  datatype LegacyEvent = LegacyEvent(
    userId: nat, userCollection: string, tenantId: nat, event: string, outcome: string,
    before: Option<Json>, after: Option<Json>, errorCode: string, ip: string, userAgent: string)

  /** An event of the site or tenant log; `failure` is the message of its error, if it has one. */
  datatype Event = Event(
    actorType: string, actorId: nat, actorEmail: string, actorCollection: string, event: string,
    entityType: string, entityId: string, outcome: string, before: Option<Json>, after: Option<Json>,
    meta: Option<Json>, errorCode: string, failure: Option<string>, ip: string, userAgent: string, requestId: string)

  datatype Refusal = TenantRequired | EventRequired | ActorTypeRequired | UserIsTenantOnly

  ghost predicate SanePayload(j: Option<Json>) { j.Some? ==> Sane(j.value) }

  ghost predicate SaneLegacy(e: LegacyEvent) {
    e.userId < UUIDS && e.tenantId < UUIDS && SanePayload(e.before) && SanePayload(e.after)
  }

  ghost predicate SaneEvent(e: Event) {
    e.actorId < UUIDS && SanePayload(e.before) && SanePayload(e.after) && SanePayload(e.meta)
  }

  function LegacyValues(id: nat, ns: int, e: LegacyEvent): seq<Value> {
    [Uuid(id), Time(ns), Uuid(e.userId), Text(e.userCollection), Uuid(e.tenantId), Text(e.event), Text(e.outcome),
     Data(e.before), Data(e.after), Text(e.errorCode), Text(e.ip), Text(e.userAgent)]
  }

  /** `encodeError`: a code of its own for an error that has none, and the message as data. */
  function ErrorCode(e: Event): string { if e.failure.Some? && e.errorCode == "" then "internal" else e.errorCode }

  function ErrorData(e: Event): Option<Json> {
    match e.failure
    case None => None
    case Some(message) => Some(Obj(map["message" := Str(message)]))
  }

  function SiteValues(id: nat, ns: int, e: Event): seq<Value> {
    [Uuid(id), Time(ns), Text(e.actorType), Uuid(e.actorId), Text(e.actorEmail), Text(e.actorCollection),
     Text(e.event), Text(e.entityType), Text(e.entityId),
     Text(if e.outcome == "" then "success" else e.outcome), Data(e.before), Data(e.after), Data(e.meta),
     Text(ErrorCode(e)), Data(ErrorData(e)), Text(e.ip), Text(e.userAgent), Text(e.requestId)]
  }

  function TenantValues(id: nat, ns: int, t: nat, e: Event): seq<Value> { SiteValues(id, ns, e) + [Uuid(t)] }

  lemma LegacyFits(id: nat, ns: int, e: LegacyEvent)
    requires id < UUIDS && SaneLegacy(e)
    ensures FitsAll(LEGACY, LegacyValues(id, ns, e))
  {
  }

  lemma SiteFits(id: nat, ns: int, e: Event)
    requires id < UUIDS && SaneEvent(e)
    ensures FitsAll(SITE, SiteValues(id, ns, e))
  {
    assert SanePayload(ErrorData(e));
  }

  lemma TenantFits(id: nat, ns: int, t: nat, e: Event)
    requires id < UUIDS && t < UUIDS && SaneEvent(e)
    ensures FitsAll(TENANT, TenantValues(id, ns, t, e)) && |TenantValues(id, ns, t, e)| == |TENANT|
  {
    hide SiteValues;
    SiteFits(id, ns, e);
  }

  function SiteRefusal(e: Event): Option<Refusal> {
    if e.event == "" then Some(EventRequired)
    else if e.actorType == "" then Some(ActorTypeRequired)
    else if e.actorType == "user" then Some(UserIsTenantOnly)
    else None
  }

  function TenantRefusal(t: nat, e: Event): Option<Refusal> {
    if t == NIL then Some(TenantRequired)
    else if e.event == "" then Some(EventRequired)
    else if e.actorType == "" then Some(ActorTypeRequired)
    else None
  }

  // The dual write

  function ActorForSite(e: LegacyEvent): string {
    if e.userCollection == "_admins" then "admin"
    else if e.userCollection == "_api_tokens" then "api_token"
    else if e.userCollection == "" && e.userId == NIL then "system"
    else "admin"
  }

  function ActorForTenant(e: LegacyEvent): string {
    if e.userCollection == "_admins" then "admin"
    else if e.userCollection == "_api_tokens" then "api_token"
    else if e.userCollection == "" then "system"
    else "user"
  }

  function Forwarded(e: LegacyEvent): Event {
    Event(
      if e.tenantId != NIL then ActorForTenant(e) else ActorForSite(e), e.userId, "", e.userCollection, e.event,
      "", "", e.outcome, e.before, e.after, None, e.errorCode, None, e.ip, e.userAgent, "")
  }

  /** The only legacy events the new store refuses are those without a name. */
  lemma ForwardingRefusesOnlyTheUnnamed(e: LegacyEvent)
    ensures var refusal :=
              if e.tenantId != NIL then TenantRefusal(e.tenantId, Forwarded(e)) else SiteRefusal(Forwarded(e));
            refusal.Some? <==> e.event == ""
  {
  }

  /** The step a legacy write adds to the new store. */
  function Copy(id: nat, ns: int, e: LegacyEvent, inserted: bool): Step {
    if e.tenantId != NIL then
      AuditSystem.WriteTenant(e.tenantId, TenantValues(id, ns, e.tenantId, Forwarded(e)), inserted)
    else AuditSystem.WriteSite(SiteValues(id, ns, Forwarded(e)), inserted)
  }

  ghost predicate Visited(results: seq<(nat, nat, Option<Reason>)>, t: nat) {
    exists i :: 0 <= i < |results| && results[i].0 == t
  }

  class Audit {
    const env: Env
    var legacyRows: seq<Row>
    var prevHash: Digest
    var siteRows: seq<Row>
    var sitePrevHash: Digest
    var tenants: map<nat, Digest>
    var table: seq<TenantRow>
    /** Every step taken so far. */
    ghost var history: seq<Step>

    ghost function View(): State
      reads this
    {
      State(Log(legacyRows, prevHash), Log(siteRows, sitePrevHash), tenants, table)
    }

    ghost predicate Valid()
      reads this
    {
      (forall s | s in history :: Fitting(s)) && View() == Run(env, START, history)
    }

    constructor (env: Env)
      ensures Valid() && this.env == env && history == []
    {
      this.env := env;
      legacyRows, siteRows, table := [], [], [];
      prevHash, sitePrevHash := GENESIS, GENESIS;
      tenants := map[];
      history := [];
    }

    /** One more step of the history. */
    lemma Continues(before: State, step: Step, past: seq<Step>)
      requires (forall s | s in past :: Fitting(s)) && before == Run(env, START, past) && Fitting(step)
      ensures (forall s | s in past + [step] :: Fitting(s))
      ensures Run(env, START, past + [step]) == Next(env, before, step)
    {
      hide Fitting, Next;
      assert (past + [step])[..|past|] == past;
    }

    /** A restart: `Bootstrap` and `NewStore` read the heads back, and tenant heads are forgotten. */
    method Restart()
      requires Valid()
      modifies this
      ensures Valid() && history == old(history) + [AuditSystem.Restart]
    {
      ghost var before := View();
      prevHash := if legacyRows == [] then GENESIS else legacyRows[|legacyRows| - 1].hash;
      sitePrevHash := if siteRows == [] then GENESIS else siteRows[|siteRows| - 1].hash;
      tenants := map[];
      Continues(before, AuditSystem.Restart, history);
      history := history + [AuditSystem.Restart];
    }

    /** The hash and the insert of one row; nothing is kept when the insert fails. */
    method Link(schema: Schema, prev: Digest, values: seq<Value>) returns (row: Row)
      requires |values| == |schema|
      ensures row == Row(StoredAll(schema, values), prev, RowHash(env, schema, prev, WrittenAll(env, values)))
    {
      var hash := ComputeHash(env, schema, prev, WrittenAll(env, values));
      row := Row(StoredAll(schema, values), prev, hash);
    }

    method WriteLegacy(id: nat, ns: int, e: LegacyEvent, inserted: bool)
      requires Valid() && id < UUIDS && SaneLegacy(e)
      modifies this
      ensures Valid() && history == old(history) + [AuditSystem.WriteLegacy(LegacyValues(id, ns, e), inserted)]
    {
      hide LegacyValues, StoredAll, WrittenAll, RowHash, FitsAll, Run;
      ghost var before := View();
      var values := LegacyValues(id, ns, e);
      LegacyFits(id, ns, e);
      var row := Link(LEGACY, prevHash, values);
      if inserted {
        legacyRows := legacyRows + [row];
        prevHash := row.hash;
      }
      ghost var step := AuditSystem.WriteLegacy(values, inserted);
      Continues(before, step, history);
      history := history + [step];
    }

    method WriteSite(id: nat, ns: int, e: Event, inserted: bool) returns (refused: Option<Refusal>)
      requires Valid() && id < UUIDS && SaneEvent(e)
      modifies this
      ensures Valid() && refused == SiteRefusal(e)
      ensures history == old(history) +
                         if refused.Some? then [] else [AuditSystem.WriteSite(SiteValues(id, ns, e), inserted)]
    {
      hide SiteValues, StoredAll, WrittenAll, RowHash, FitsAll, Run, SaneEvent;
      refused := SiteRefusal(e);
      if refused.Some? {
        return;
      }
      ghost var before := View();
      var values := SiteValues(id, ns, e);
      SiteFits(id, ns, e);
      var row := Link(SITE, sitePrevHash, values);
      if inserted {
        siteRows := siteRows + [row];
        sitePrevHash := row.hash;
      }
      ghost var step := AuditSystem.WriteSite(values, inserted);
      Continues(before, step, history);
      history := history + [step];
    }

    /** The chain head of a tenant, read from its newest row the first time. */
    method TenantChainFor(t: nat) returns (head: Digest)
      requires Valid()
      modifies this`tenants
      ensures t in tenants && tenants[t] == head && View() == Opened(old(View()), t)
    {
      if t !in tenants {
        var newest := RowsOf(table, t);
        tenants := tenants[t := if newest == [] then GENESIS else newest[|newest| - 1].hash];
      }
      head := tenants[t];
    }

    method WriteTenant(id: nat, ns: int, t: nat, e: Event, inserted: bool) returns (refused: Option<Refusal>)
      requires Valid() && id < UUIDS && t < UUIDS && SaneEvent(e)
      modifies this
      ensures Valid() && refused == TenantRefusal(t, e)
      ensures history == old(history) +
                         if refused.Some? then []
                         else [AuditSystem.WriteTenant(t, TenantValues(id, ns, t, e), inserted)]
    {
      hide SiteValues, StoredAll, WrittenAll, RowHash, FitsAll, Run, SaneEvent, RowsOf, MaxSeq;
      refused := TenantRefusal(t, e);
      if refused.Some? {
        return;
      }
      ghost var before := View();
      var head := TenantChainFor(t);
      var values := TenantValues(id, ns, t, e);
      TenantFits(id, ns, t, e);
      var row := Link(TENANT, head, values);
      if inserted {
        table := table + [TenantRow(t, MaxSeq(table, t) + 1, row)];
        tenants := tenants[t := row.hash];
      }
      ghost var step := AuditSystem.WriteTenant(t, values, inserted);
      Continues(before, step, history);
      history := history + [step];
    }

    /** The legacy write, and the copy it sends to the new store once its own insert is in. */
    method Write(id: nat, ns: int, e: LegacyEvent, inserted: bool, copyId: nat, copyNs: int, copied: bool)
      requires Valid() && id < UUIDS && copyId < UUIDS && SaneLegacy(e)
      modifies this
      ensures Valid() && |old(history)| < |history| <= |old(history)| + 2
      ensures history[..|old(history)| + 1] ==
              old(history) + [AuditSystem.WriteLegacy(LegacyValues(id, ns, e), inserted)]
      ensures inserted && e.event != "" ==> history[|old(history)| + 1..] == [Copy(copyId, copyNs, e, copied)]
      ensures !inserted || e.event == "" ==> |history| == |old(history)| + 1
    {
      hide LegacyValues, SiteValues, TenantValues, Run, Fitting;
      ForwardingRefusesOnlyTheUnnamed(e);
      WriteLegacy(id, ns, e, inserted);
      if inserted {
        if e.tenantId != NIL {
          var _ := WriteTenant(copyId, copyNs, e.tenantId, Forwarded(e), copied);
        } else {
          var _ := WriteSite(copyId, copyNs, Forwarded(e), copied);
        }
      }
    }

    /** The verifiers accept whatever this process wrote. */
    method VerifyLegacy() returns (n: nat, broken: Option<Reason>)
      requires Valid()
      ensures n == |legacyRows| && broken == None
    {
      hide Run, Linked, TypedRow;
      ChainsAlwaysVerify(env, history, Legacy);
      n, broken := Verify(env, LEGACY, legacyRows);
    }

    method VerifySite() returns (n: nat, broken: Option<Reason>)
      requires Valid()
      ensures n == |siteRows| && broken == None
    {
      hide Run, Linked, TypedRow;
      ChainsAlwaysVerify(env, history, Site);
      n, broken := Verify(env, SITE, siteRows);
    }

    method VerifyTenant(t: nat) returns (n: nat, broken: Option<Reason>)
      requires Valid()
      ensures n == |RowsOf(table, t)| && broken == None
    {
      hide Run, Linked, TypedRow, RowsOf;
      ChainsAlwaysVerify(env, history, Tenant(t));
      n, broken := Verify(env, TENANT, RowsOf(table, t));
    }

    /** Every tenant with a row is visited once, and every one of them passes. */
    method VerifyAllTenants() returns (results: seq<(nat, nat, Option<Reason>)>)
      requires Valid()
      ensures forall r | r in results :: r.1 == |RowsOf(table, r.0)| && r.2 == None
      ensures forall i, j | 0 <= i < j < |results| :: results[i].0 != results[j].0
      ensures forall row | row in table :: Visited(results, row.tenant)
    {
      hide Run, RowsOf, Fitting;
      results := [];
      var rest := set row | row in table :: row.tenant;
      ghost var all := rest;
      while rest != {}
        invariant rest <= all
        invariant forall r | r in results :: r.1 == |RowsOf(table, r.0)| && r.2 == None && r.0 !in rest
        invariant forall i, j | 0 <= i < j < |results| :: results[i].0 != results[j].0
        invariant forall t | t in all :: t in rest || Visited(results, t)
      {
        var t :| t in rest;
        var n, broken := VerifyTenant(t);
        ghost var was := results;
        results := results + [(t, n, broken)];
        rest := rest - {t};
        assert results[|was|].0 == t;
        forall u | Visited(was, u) ensures Visited(results, u) {
          var i :| 0 <= i < |was| && was[i].0 == u;
          assert results[i].0 == u;
        }
      }
      assert forall row | row in table :: row.tenant in all;
    }
  }
}
