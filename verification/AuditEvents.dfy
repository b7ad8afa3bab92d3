/** internal/audit/audit.go and store.go: which column each part of an event goes
    to, which events are refused, and what a legacy event is forwarded as. */
module AuditEvents {
  import opened Text
  import opened Ids
  import opened AuditJson
  import opened AuditRow
  import opened AuditChain
  import opened AuditStore

  /** A payload as it is hashed. */
  function PayloadJson(p: Option<Json>): Json { if p.Some? then p.value else Null }

  /** Column `i` of a row holds `j` under its name. */
  ghost predicate Column(m: map<string, Json>, name: string, j: Json) { name in m && m[name] == j }

  lemma {:induction false} ColumnAt(env: Env, schema: Schema, values: seq<Value>, i: nat, name: string)
    requires Distinct(schema) && |values| == |schema| && i < |schema| && schema[i].name == name
    ensures Column(Assemble(schema, WrittenAll(env, values)), name, Written(values[i], env.stamp))
  {
    hide Distinct, Assemble, Written;
    Assembled(schema, WrittenAll(env, values), i);
  }

  /** What is hashed of a legacy event: who acted, where and when. */
  lemma {:induction false} LegacyWho(env: Env, id: nat, ns: int, e: LegacyEvent)
    ensures var m := Assemble(LEGACY, WrittenAll(env, LegacyValues(id, ns, e)));
            && Column(m, "id", Str(UuidText(id))) && Column(m, "at", Str(env.stamp(Micros(ns))))
            && Column(m, "user_id", Str(UuidText(e.userId))) && Column(m, "user_collection", Str(e.userCollection))
            && Column(m, "tenant_id", Str(UuidText(e.tenantId))) && Column(m, "event", Str(e.event))
  {
    hide Assemble, UuidText, Distinct, Column;
    var values := LegacyValues(id, ns, e);
    LegacyDistinct();
    ColumnAt(env, LEGACY, values, 0, "id");
    ColumnAt(env, LEGACY, values, 1, "at");
    ColumnAt(env, LEGACY, values, 2, "user_id");
    ColumnAt(env, LEGACY, values, 3, "user_collection");
    ColumnAt(env, LEGACY, values, 4, "tenant_id");
    ColumnAt(env, LEGACY, values, 5, "event");
  }

  /** And what came of it. */
  lemma {:induction false} LegacyWhat(env: Env, id: nat, ns: int, e: LegacyEvent)
    ensures var m := Assemble(LEGACY, WrittenAll(env, LegacyValues(id, ns, e)));
            && Column(m, "outcome", Str(e.outcome)) && Column(m, "before", PayloadJson(e.before))
            && Column(m, "after", PayloadJson(e.after)) && Column(m, "error_code", Str(e.errorCode))
            && Column(m, "ip", Str(e.ip)) && Column(m, "user_agent", Str(e.userAgent))
  {
    hide Assemble, UuidText, Distinct, Column;
    var values := LegacyValues(id, ns, e);
    LegacyDistinct();
    ColumnAt(env, LEGACY, values, 6, "outcome");
    ColumnAt(env, LEGACY, values, 7, "before");
    ColumnAt(env, LEGACY, values, 8, "after");
    ColumnAt(env, LEGACY, values, 9, "error_code");
    ColumnAt(env, LEGACY, values, 10, "ip");
    ColumnAt(env, LEGACY, values, 11, "user_agent");
  }

  /** What the site log hashes of an event: when it was. */
  lemma {:induction false} SiteWhen(env: Env, id: nat, ns: int, e: Event)
    ensures var m := Assemble(SITE, WrittenAll(env, SiteValues(id, ns, e)));
            Column(m, "id", Str(UuidText(id))) && Column(m, "at", Str(env.stamp(Micros(ns))))
  {
    hide Assemble, UuidText, Distinct, Column;
    var values := SiteValues(id, ns, e);
    SiteDistinct();
    ColumnAt(env, SITE, values, 0, "id");
    ColumnAt(env, SITE, values, 1, "at");
  }

  /** Who acted. */
  lemma {:induction false} SiteWho(env: Env, id: nat, ns: int, e: Event)
    ensures var m := Assemble(SITE, WrittenAll(env, SiteValues(id, ns, e)));
            && Column(m, "actor_type", Str(e.actorType)) && Column(m, "actor_id", Str(UuidText(e.actorId)))
            && Column(m, "actor_email", Str(e.actorEmail)) && Column(m, "actor_collection", Str(e.actorCollection))
  {
    hide Assemble, UuidText, Distinct, Column;
    var values := SiteValues(id, ns, e);
    SiteDistinct();
    ColumnAt(env, SITE, values, 2, "actor_type");
    ColumnAt(env, SITE, values, 3, "actor_id");
    ColumnAt(env, SITE, values, 4, "actor_email");
    ColumnAt(env, SITE, values, 5, "actor_collection");
  }

  /** What was done, and to what. */
  lemma {:induction false} SiteEntity(env: Env, id: nat, ns: int, e: Event)
    ensures var m := Assemble(SITE, WrittenAll(env, SiteValues(id, ns, e)));
            && Column(m, "event", Str(e.event)) && Column(m, "entity_type", Str(e.entityType))
            && Column(m, "entity_id", Str(e.entityId))
  {
    hide Assemble, UuidText, Distinct, Column;
    var values := SiteValues(id, ns, e);
    SiteDistinct();
    ColumnAt(env, SITE, values, 6, "event");
    ColumnAt(env, SITE, values, 7, "entity_type");
    ColumnAt(env, SITE, values, 8, "entity_id");
  }

  /** And what came of it: the outcome is success unless given, an error without
      a code of its own is internal, and its message is kept as data. */
  lemma {:induction false} SiteWhat(env: Env, id: nat, ns: int, e: Event)
    ensures var m := Assemble(SITE, WrittenAll(env, SiteValues(id, ns, e)));
            && Column(m, "outcome", Str(if e.outcome == "" then "success" else e.outcome))
            && Column(m, "before", PayloadJson(e.before)) && Column(m, "after", PayloadJson(e.after))
            && Column(m, "meta", PayloadJson(e.meta)) && Column(m, "ip", Str(e.ip))
            && Column(m, "user_agent", Str(e.userAgent)) && Column(m, "request_id", Str(e.requestId))
            && Column(m, "error_code", Str(if e.errorCode == "" && e.failure.Some? then "internal" else e.errorCode))
            && Column(m, "error_data",
                      if e.failure == None then Null else Obj(map["message" := Str(e.failure.value)]))
  {
    hide Assemble, UuidText, Distinct, Column;
    var values := SiteValues(id, ns, e);
    SiteDistinct();
    ColumnAt(env, SITE, values, 9, "outcome");
    ColumnAt(env, SITE, values, 10, "before");
    ColumnAt(env, SITE, values, 11, "after");
    ColumnAt(env, SITE, values, 12, "meta");
    ColumnAt(env, SITE, values, 13, "error_code");
    ColumnAt(env, SITE, values, 14, "error_data");
    ColumnAt(env, SITE, values, 15, "ip");
    ColumnAt(env, SITE, values, 16, "user_agent");
    ColumnAt(env, SITE, values, 17, "request_id");
  }

  /** A tenant's row has the same columns and the tenant. */
  lemma {:induction false} TenantColumns(env: Env, id: nat, ns: int, t: nat, e: Event)
    ensures var m := Assemble(TENANT, WrittenAll(env, TenantValues(id, ns, t, e)));
            m == Assemble(SITE, WrittenAll(env, SiteValues(id, ns, e)))["tenant_id" := Str(UuidText(t))]
  {
    hide UuidText;
    var site, all := SiteValues(id, ns, e), TenantValues(id, ns, t, e);
    var w := WrittenAll(env, all);
    assert TENANT[..18] == SITE && w[..18] == WrittenAll(env, site) && |TENANT| == 19;
    assert TENANT[18].name == "tenant_id" && w[18] == Str(UuidText(t));
  }

  // ---- refusals and forwarding -------------------------------------------------------

  /** The site log takes exactly the named events of a named kind of actor other
      than a user; a tenant's log takes any named kind, for a named tenant. */
  lemma {:induction false} TakenIff(t: nat, e: Event)
    ensures SiteRefusal(e) == None <==> e.event != "" && e.actorType != "" && e.actorType != "user"
    ensures TenantRefusal(t, e) == None <==> t != 0 && e.event != "" && e.actorType != ""
    ensures e.event == "" ==> SiteRefusal(e) == Some(EventRequired)
    ensures e.event != "" && e.actorType == "" ==> SiteRefusal(e) == Some(ActorTypeRequired)
    ensures e.event != "" && e.actorType == "user" ==> SiteRefusal(e) == Some(UserIsTenantOnly)
    ensures t == 0 ==> TenantRefusal(t, e) == Some(TenantRequired)
    ensures t != 0 && e.event == "" ==> TenantRefusal(t, e) == Some(EventRequired)
    ensures t != 0 && e.event != "" && e.actorType == "" ==> TenantRefusal(t, e) == Some(ActorTypeRequired)
  {
  }

  /** A forwarded event keeps its actor, name, outcome, payloads, error code and
      origin; its kind of actor comes from the collection, and a user is one
      only within a tenant. */
  lemma {:induction false} ForwardedKeeps(e: LegacyEvent)
    ensures var f := Forwarded(e);
            && f.actorId == e.userId && f.actorCollection == e.userCollection && f.event == e.event
            && f.outcome == e.outcome && f.before == e.before && f.after == e.after && f.errorCode == e.errorCode
            && f.ip == e.ip && f.userAgent == e.userAgent
            && f.meta == None && f.failure == None && f.entityType == f.entityId == f.actorEmail == f.requestId == ""
            && (e.userCollection == "_admins" ==> f.actorType == "admin")
            && (e.userCollection == "_api_tokens" ==> f.actorType == "api_token")
            && (e.userCollection == "" ==>
                f.actorType == if e.tenantId == 0 && e.userId != 0 then "admin" else "system")
            && (e.userCollection !in {"_admins", "_api_tokens", ""} ==>
                f.actorType == if e.tenantId != 0 then "user" else "admin")
  {
  }

  /** The copy of a legacy event goes to its tenant's log, or to the site log when it names none. */
  lemma {:induction false} CopyGoesTo(id: nat, ns: int, e: LegacyEvent, inserted: bool)
    ensures var step := Copy(id, ns, e, inserted);
            && (step.WriteTenant? <==> e.tenantId != 0) && (step.WriteTenant? ==> step.t == e.tenantId)
            && (step.WriteSite? <==> e.tenantId == 0)
            && (step.WriteTenant? || step.WriteSite? ==> step.inserted == inserted)
  {
  }
}
