/** All the chains of one process: the legacy chain, the site chain and one
    chain per tenant, under any interleaving of writes, failed inserts and restarts. */
module AuditSystem {
  import opened Text
  import opened AuditRow
  import opened AuditChain

  /** A row of the shared tenant table. */
  datatype TenantRow = TenantRow(tenant: nat, tenantSeq: nat, row: Row)

  /** `heads` are the tenant chains opened since the process started. */
  datatype State = State(legacy: Log, site: Log, heads: map<nat, Digest>, table: seq<TenantRow>)

  datatype Step =
    | WriteLegacy(values: seq<Value>, inserted: bool)
    | WriteSite(values: seq<Value>, inserted: bool)
    | OpenTenant(t: nat)
    | WriteTenant(t: nat, values: seq<Value>, inserted: bool)
    | Restart

  const START := State(Log([], GENESIS), Log([], GENESIS), map[], [])

  /** `WHERE tenant_id = t`, oldest first. */
  function RowsOf(table: seq<TenantRow>, t: nat): seq<Row> {
    if table == [] then []
    else
      var init, last := table[..|table| - 1], table[|table| - 1];
      RowsOf(init, t) + if last.tenant == t then [last.row] else []
  }

  /** `COALESCE(MAX(tenant_seq), 0)` over one tenant. */
  function MaxSeq(table: seq<TenantRow>, t: nat): nat {
    if table == [] then 0
    else
      var init, last := table[..|table| - 1], table[|table| - 1];
      var m := MaxSeq(init, t);
      if last.tenant == t && last.tenantSeq > m then last.tenantSeq else m
  }

  /** `tenantChainFor`: the head is loaded once and kept. */
  function Opened(st: State, t: nat): (next: State)
    ensures t in next.heads
  {
    if t in st.heads then st else st.(heads := st.heads[t := Head(RowsOf(st.table, t))])
  }

  ghost function Next(env: Env, st: State, step: Step): State
    requires Fitting(step)
  {
    match step
    case WriteLegacy(values, inserted) => st.(legacy := Append(env, LEGACY, st.legacy, values, inserted))
    case WriteSite(values, inserted) => st.(site := Append(env, SITE, st.site, values, inserted))
    case OpenTenant(t) => Opened(st, t)
    case WriteTenant(t, values, inserted) =>
      var ready := Opened(st, t);
      if !inserted then ready
      else
        var log := Append(env, TENANT, Log([], ready.heads[t]), values, true);
        ready.(
          heads := ready.heads[t := log.head],
          table := st.table + [TenantRow(t, MaxSeq(st.table, t) + 1, log.rows[0])])
    case Restart => State(Reload(st.legacy), Reload(st.site), map[], st.table)
  }

  /** The values of a write match the columns; a tenant's write names the tenant. */
  ghost predicate Fitting(step: Step) {
    match step
    case WriteLegacy(values, _) => FitsAll(LEGACY, values)
    case WriteSite(values, _) => FitsAll(SITE, values)
    case WriteTenant(t, values, _) => FitsAll(TENANT, values) && values[|values| - 1] == Uuid(t)
    case _ => true
  }

  ghost function Run(env: Env, st: State, steps: seq<Step>): State
    requires forall s | s in steps :: Fitting(s)
  {
    if steps == [] then st
    else Next(env, Run(env, st, steps[..|steps| - 1]), steps[|steps| - 1])
  }

  // Each chain on its own

  datatype Chain = Legacy | Site | Tenant(t: nat)

  function SchemaOf(c: Chain): Schema {
    match c
    case Legacy => LEGACY
    case Site => SITE
    case Tenant(_) => TENANT
  }

  /** A chain as it stands: its rows, and the head the next write will link to. */
  function LogOf(st: State, c: Chain): Log {
    match c
    case Legacy => st.legacy
    case Site => st.site
    case Tenant(t) => Log(RowsOf(st.table, t), Opened(st, t).heads[t])
  }

  /** The values a step adds to a chain, if it adds any. */
  function Added(step: Step, c: Chain): Option<seq<Value>> {
    match (step, c)
    case (WriteLegacy(values, true), Legacy) => Some(values)
    case (WriteSite(values, true), Site) => Some(values)
    case (WriteTenant(t, values, true), Tenant(u)) => if t == u then Some(values) else None
    case _ => None
  }

  /** What a chain is when nothing ever happened but its own successful writes. */
  ghost function Alone(env: Env, steps: seq<Step>, c: Chain): Log
    requires forall s | s in steps :: Fitting(s)
  {
    if steps == [] then Log([], GENESIS)
    else
      var before, last := Alone(env, steps[..|steps| - 1], c), steps[|steps| - 1];
      match Added(last, c)
      case None => before
      case Some(values) => AddedFits(last, c); Append(env, SchemaOf(c), before, values, true)
  }

  lemma AddedFits(step: Step, c: Chain)
    requires Fitting(step)
    ensures Added(step, c).Some? ==> FitsAll(SchemaOf(c), Added(step, c).value)
  {
    hide FitsAll;
  }

  /** The tenant sequence numbers of each tenant run 1, 2, 3, …, so sorting by them keeps the insertion order. */
  ghost predicate Numbered(table: seq<TenantRow>) {
    forall i | 0 <= i < |table| :: table[i].tenantSeq == |RowsOf(table[..i], table[i].tenant)| + 1
  }

  lemma {:induction false} MaxSeqCounts(table: seq<TenantRow>, t: nat)
    requires Numbered(table)
    ensures MaxSeq(table, t) == |RowsOf(table, t)|
  {
    if table != [] {
      var init := table[..|table| - 1];
      forall i | 0 <= i < |init| ensures init[i].tenantSeq == |RowsOf(init[..i], init[i].tenant)| + 1 {
        assert init[..i] == table[..i] && init[i] == table[i];
      }
      MaxSeqCounts(init, t);
      assert table[|table| - 1].tenantSeq == |RowsOf(init, table[|table| - 1].tenant)| + 1;
    }
  }

  /** The greatest sequence number of a tenant, in any table; 0 when there is none. */
  lemma {:induction false} MaxSeqIsMax(table: seq<TenantRow>, t: nat)
    ensures forall i | 0 <= i < |table| && table[i].tenant == t :: table[i].tenantSeq <= MaxSeq(table, t)
    ensures MaxSeq(table, t) == 0
            || exists i :: 0 <= i < |table| && table[i].tenant == t && table[i].tenantSeq == MaxSeq(table, t)
  {
    if table != [] {
      var init := table[..|table| - 1];
      MaxSeqIsMax(init, t);
      assert forall i | 0 <= i < |init| :: init[i] == table[i];
    }
  }

  lemma {:induction false} TableGrows(table: seq<TenantRow>, row: TenantRow)
    requires Numbered(table) && row.tenantSeq == MaxSeq(table, row.tenant) + 1
    ensures Numbered(table + [row])
    ensures forall t: nat :: RowsOf(table + [row], t) == RowsOf(table, t) + if row.tenant == t then [row.row] else []
  {
    hide MaxSeq;
    MaxSeqCounts(table, row.tenant);
    var next := table + [row];
    assert next[..|table|] == table;
    forall i | 0 <= i < |next| ensures next[i].tenantSeq == |RowsOf(next[..i], next[i].tenant)| + 1 {
      if i < |table| { assert next[..i] == table[..i]; }
    }
  }

  lemma {:induction false} AloneIsSound(env: Env, steps: seq<Step>, c: Chain)
    requires forall s | s in steps :: Fitting(s)
    ensures Sound(env, SchemaOf(c), Alone(env, steps, c))
  {
    hide Append, FitsAll, Fitting, Added, SchemaOf;
    if steps != [] {
      var last := steps[|steps| - 1];
      AloneIsSound(env, steps[..|steps| - 1], c);
      AddedFits(last, c);
      if Added(last, c).Some? {
        AppendKeeps(env, SchemaOf(c), Alone(env, steps[..|steps| - 1], c), Added(last, c).value, true);
      }
    }
  }

  /** The row a tenant write adds. */
  ghost function NewRow(env: Env, st: State, step: Step): TenantRow
    requires Fitting(step) && step.WriteTenant?
  {
    TenantRow(
      step.t, MaxSeq(st.table, step.t) + 1,
      Append(env, TENANT, Log([], Opened(st, step.t).heads[step.t]), step.values, true).rows[0])
  }

  lemma AppendRows(env: Env, log: Log, values: seq<Value>)
    requires FitsAll(TENANT, values)
    ensures var one := Append(env, TENANT, Log([], log.head), values, true);
            |one.rows| == 1 && Append(env, TENANT, log, values, true) == Log(log.rows + [one.rows[0]], one.head)
  {
    hide FitsAll, RowHash;
  }

  /** One step adds to a chain what it writes there and leaves every other chain as it was. */
  lemma {:induction false} StepAdds(env: Env, st: State, step: Step, c: Chain)
    requires Fitting(step) && Numbered(st.table) && LogOf(st, c).head == Head(LogOf(st, c).rows)
    ensures Numbered(Next(env, st, step).table)
    ensures Added(step, c) == None ==> LogOf(Next(env, st, step), c) == LogOf(st, c)
    ensures Added(step, c).Some? ==>
              (FitsAll(SchemaOf(c), Added(step, c).value)
              && LogOf(Next(env, st, step), c) == Append(env, SchemaOf(c), LogOf(st, c), Added(step, c).value, true))
  {
    hide RowsOf, FitsAll, MaxSeq, Numbered, RowHash, StoredAll, WrittenAll;
    AddedFits(step, c);
    match step
    case WriteTenant(u, values, true) =>
      TableGrows(st.table, NewRow(env, st, step));
      AppendRows(env, LogOf(st, Tenant(u)), values);
    case _ =>
  }

  /** In every run each chain is what its own writes alone would have made it:
      failed inserts, restarts and the other chains leave no trace. */
  lemma {:induction false} ChainsAreIndependent(env: Env, steps: seq<Step>, c: Chain)
    requires forall s | s in steps :: Fitting(s)
    ensures LogOf(Run(env, START, steps), c) == Alone(env, steps, c)
    ensures Numbered(Run(env, START, steps).table)
  {
    hide Fitting, Next, RowsOf, FitsAll, LogOf, Added, Append;
    if steps == [] {
      assert LogOf(START, c) == Log([], GENESIS) by { StartLog(c); }
    } else {
      var init := steps[..|steps| - 1];
      ChainsAreIndependent(env, init, c);
      AloneIsSound(env, init, c);
      StepAdds(env, Run(env, START, init), steps[|steps| - 1], c);
    }
  }

  lemma StartLog(c: Chain)
    ensures LogOf(START, c) == Log([], GENESIS)
  {
  }

  /** In every run the legacy chain, the site chain and every tenant's chain verify. */
  lemma {:induction false} ChainsAlwaysVerify(env: Env, steps: seq<Step>, c: Chain)
    requires forall s | s in steps :: Fitting(s)
    ensures var rows := LogOf(Run(env, START, steps), c).rows;
            Linked(env, SchemaOf(c), rows) && forall r | r in rows :: TypedRow(SchemaOf(c), r)
  {
    hide Fitting, Run, Linked, TypedRow, LogOf;
    ChainsAreIndependent(env, steps, c);
    AloneIsSound(env, steps, c);
  }

  lemma NamesAreDistinct(c: Chain)
    ensures Distinct(SchemaOf(c))
  {
    hide Distinct;
    match c
    case Legacy => LegacyDistinct();
    case Site => SiteDistinct();
    case Tenant(_) => TenantDistinct();
  }

  /** For each of the chains: two logs its verifier accepts that end in one hash
      agree in every hashed column of every row, up to NULL folding, or a
      collision or a preimage of genesis is in hand. */
  lemma {:induction false} ChainIsTamperEvident(env: Env, c: Chain, a: seq<Row>, b: seq<Row>) returns (clash: Clash)
    requires Hashes(env) && Linked(env, SchemaOf(c), a) && Linked(env, SchemaOf(c), b) && Head(a) == Head(b)
    requires forall r | r in a + b :: TypedRow(SchemaOf(c), r)
    ensures clash != NoClash ==> Found(env, clash)
    ensures clash == NoClash ==> |a| == |b| && forall i | 0 <= i < |a| :: SameRow(env, SchemaOf(c), a[i], b[i])
  {
    hide Distinct, Linked, TypedRow, SameRow, SchemaOf;
    NamesAreDistinct(c);
    clash := TamperEvident(env, SchemaOf(c), a, b);
  }
}
