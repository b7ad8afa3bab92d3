/** internal/filter/sql.go: which columns a filter may name, which of them hold
    UUIDs, where one hop leads, and what the variables bind. */
module FilterColumns {
  import opened Text
  import opened FilterAst
  import opened FilterSql
  import opened FilterMeaning
  import opened FilterNumbering
  import FilterCompiled
  import SqlText

  // ---- variables ------------------------------------------------------------------

  /** Both names of the auth id bind the id of whoever asks, even when it is
      empty, and the collection name binds their collection. */
  lemma VariablesBind(spec: CollectionSpec, ctx: Context, start: nat)
    ensures Emit(spec, ctx, MagicVar("@me"), start) == Ok(Piece("$" + Decimal(start), [Str(ctx.authId)]))
    ensures Emit(spec, ctx, MagicVar("@request.auth.id"), start) == Ok(Piece("$" + Decimal(start), [Str(ctx.authId)]))
    ensures Emit(spec, ctx, MagicVar("@request.auth.collectionName"), start)
         == Ok(Piece("$" + Decimal(start), [Str(ctx.authCollection)]))
  {
  }

  // ---- fields -----------------------------------------------------------------------

  /** Field `i` is the first of its name. */
  ghost predicate FirstNamed(fields: seq<FieldSpec>, i: nat, name: string) {
    i < |fields| && fields[i].name == name && forall j | 0 <= j < i :: fields[j].name != name
  }

  ghost predicate FirstRelation(fields: seq<FieldSpec>, i: nat, name: string) {
    && i < |fields| && fields[i].name == name && fields[i].ftype == TypeRelation
    && forall j | 0 <= j < i :: !(fields[j].name == name && fields[j].ftype == TypeRelation)
  }

  lemma {:induction false} FoundIff(fields: seq<FieldSpec>, name: string)
    ensures forall i: nat | FirstNamed(fields, i, name) :: FindField(fields, name) == Some(fields[i])
    ensures FindField(fields, name) == None ==> forall i | 0 <= i < |fields| :: fields[i].name != name
    ensures FindField(fields, name).Some? ==> exists i: nat :: FirstNamed(fields, i, name)
  {
    if fields != [] {
      var rest := fields[1..];
      FoundIff(rest, name);
      if fields[0].name == name {
        assert FirstNamed(fields, 0, name);
      } else {
        forall i: nat | FirstNamed(fields, i, name) ensures FindField(fields, name) == Some(fields[i]) {
          assert FirstNamed(rest, i - 1, name);
        }
        if i: nat :| FirstNamed(rest, i, name) { assert FirstNamed(fields, i + 1, name); }
      }
    }
  }

  lemma {:induction false} RelationIff(fields: seq<FieldSpec>, name: string)
    ensures forall i: nat | FirstRelation(fields, i, name) :: FindRelation(fields, name) == Some(fields[i])
    ensures FindRelation(fields, name).Some? ==> exists i: nat :: FirstRelation(fields, i, name)
  {
    if fields != [] {
      var rest := fields[1..];
      RelationIff(rest, name);
      if fields[0].name == name && fields[0].ftype == TypeRelation {
        assert FirstRelation(fields, 0, name);
      } else {
        forall i: nat | FirstRelation(fields, i, name) ensures FindRelation(fields, name) == Some(fields[i]) {
          assert FirstRelation(rest, i - 1, name);
        }
        if i: nat :| FirstRelation(rest, i, name) { assert FirstRelation(fields, i + 1, name); }
      }
    }
  }

  /** The names of the system columns. */
  const SYSTEM: set<string> :=
    {"id", "created", "updated", "tenant_id", "email", "verified", "last_login_at", "parent", "sort_index",
     "password_hash", "token_key"}

  /** A declared column that a scalar comparison can use. */
  ghost predicate ScalarField(spec: CollectionSpec, name: string) {
    name !in SYSTEM &&
    exists i: nat :: FirstNamed(spec.fields, i, name) && spec.fields[i].ftype !in COMPOUND
  }

  /** Field types without scalar comparison: structured values, lists, files and secrets. */
  const COMPOUND: set<FieldType> :=
    {TypeJSON, TypeFiles, TypeFile, TypeMultiSelect, TypeRelations, TypePassword, TypePersonName, TypeQuantity,
     TypeCoordinates, TypeAddress, TypeMoneyRange, TypeDateRange, TypeTimeRange, TypeBankAccount, TypeTags,
     TypeTreePath}

  /** A column may be named if and only if it is a system column that the
      collection has, other than the credentials, or a declared scalar field. */
  lemma {:induction false} ColumnAllowedIff(spec: CollectionSpec, name: string)
    ensures ColumnAllowed(spec, name) <==>
            || name == "id" || name == "created" || name == "updated"
            || (name == "tenant_id" && spec.tenant)
            || ((name == "email" || name == "verified" || name == "last_login_at") && spec.auth)
            || (name == "parent" && spec.adjacencyList) || (name == "sort_index" && spec.ordered)
            || ScalarField(spec, name)
    ensures !ColumnAllowed(spec, "password_hash") && !ColumnAllowed(spec, "token_key")
  {
    hide FirstNamed, FindField;
    FoundIff(spec.fields, name);
  }

  /** A UUID column: `id`, the tenant and parent where the collection has them, and relations. */
  lemma {:induction false} HasUuidIff(spec: CollectionSpec, name: string)
    ensures HasUuidColumn(spec, name) <==>
            || name == "id" || (name == "tenant_id" && spec.tenant) || (name == "parent" && spec.adjacencyList)
            || (name !in {"id", "tenant_id", "parent"} &&
                exists i: nat :: FirstNamed(spec.fields, i, name) && spec.fields[i].ftype == TypeRelation)
  {
    hide FirstNamed, FindField;
    FoundIff(spec.fields, name);
  }

  /** One hop leads to `c` if and only if the first relation field of that name
      does, and a resolver is wired that knows its collection as `c`. */
  lemma {:induction false} HopIff(spec: CollectionSpec, ctx: Context, rel: string, c: CollectionSpec)
    ensures Hop(spec, ctx, rel) == Ok(c) <==>
            exists i: nat :: FirstRelation(spec.fields, i, rel) && ctx.schema.Some?
                             && spec.fields[i].related in ctx.schema.value
                             && ctx.schema.value[spec.fields[i].related] == c
  {
    hide FirstRelation, FindRelation;
    RelationIff(spec.fields, rel);
  }

  // ---- the anonymous rule ---------------------------------------------------------------

  /** A reference to a UUID column here, or one hop away. */
  ghost predicate UuidReference(spec: CollectionSpec, ctx: Context, n: Node) {
    n.Ident? &&
    if n.dottedPath == "" then HasUuidColumn(spec, n.name)
    else exists c :: |Split(n.dottedPath, '.')| == 2 && Hop(spec, ctx, Split(n.dottedPath, '.')[0]) == Ok(c)
                     && HasUuidColumn(c, Split(n.dottedPath, '.')[1])
  }

  predicate AuthVariable(n: Node) { n == MagicVar("@me") || n == MagicVar("@request.auth.id") }

  /** A comparison is denied outright if and only if nobody is signed in and it
      sets the auth id, under either name, against a UUID column, on either side. */
  lemma {:induction false} DeniedIff(spec: CollectionSpec, ctx: Context, l: Node, r: Node)
    ensures DeniedCompare(spec, ctx, l, r) <==>
            ctx.authId == "" && ((AuthVariable(l) && UuidReference(spec, ctx, r))
                                 || (AuthVariable(r) && UuidReference(spec, ctx, l)))
  {
    hide HasUuidColumn, Hop, Split;
  }

  /** Such a comparison is FALSE on every row, whatever the operator, unless it is against null. */
  lemma {:induction false} AnonymousIsFalse(
      rules: Rules, db: Db, spec: CollectionSpec, ctx: Context, row: Row, op: string, l: Node, r: Node)
    requires ctx.authId == "" && AuthVariable(l) && UuidReference(spec, ctx, r)
    ensures Meaning(rules, db, spec, ctx, row, Compare(op, l, r)) == FALSE
    ensures Meaning(rules, db, spec, ctx, row, Compare(op, r, l)) == FALSE
    ensures Emit(spec, ctx, Compare(op, l, r), 1) == Emit(spec, ctx, Compare(op, r, l), 1) == Ok(Piece("(false)", []))
  {
    hide HasUuidColumn, Hop, Split, CompareIsAnonUuid;
    DeniedIff(spec, ctx, l, r);
    DeniedIff(spec, ctx, r, l);
  }

  // ---- secrets ----------------------------------------------------------------------------

  /** Columns an expression names, its subqueries included. */
  function Named(e: SqlText.Expr): set<string>
    decreases e
  {
    match e
    case Col(c) => {c}
    case QCol(_, c) => {c}
    case Not(x) => Named(x)
    case Either(l, r) => Named(l) + Named(r)
    case Both(l, r) => Named(l) + Named(r)
    case Cmp(_, l, r) => Named(l) + Named(r)
    case Like(_, x, p) => Named(x) + Named(p)
    case Concat(l, r) => Named(l) + Named(r)
    case OneOf(x, items) => Named(x) + NamedBy(items)
    case Range(x, lo, hi) => Named(x) + Named(lo) + Named(hi)
    case NullTest(x, _) => Named(x)
    case Subquery(sel, _, cond) => Named(sel) + Named(cond)
    case _ => {}
  }

  function NamedBy(items: seq<SqlText.Expr>): set<string>
    decreases items
  {
    if items == [] then {} else Named(items[0]) + NamedBy(items[1..])
  }

  const CREDENTIALS: set<string> := {"password_hash", "token_key"}

  ghost predicate IsRelation(spec: CollectionSpec, name: string) {
    exists i: nat :: FirstRelation(spec.fields, i, name)
  }

  /** Credentials named only as a relation field that carries such a name. */
  ghost predicate NoSecret(spec: CollectionSpec, names: set<string>) {
    forall c | c in CREDENTIALS && c in names :: IsRelation(spec, c)
  }

  lemma {:induction false} NoSecretNamed(spec: CollectionSpec, ctx: Context, e: SqlText.Expr)
    requires ColumnsAllowed(spec, ctx, e)
    ensures NoSecret(spec, Named(e))
    decreases e
  {
    hide ColumnAllowed, IsRelation;
    match e {
      case Col(c) => ColumnAllowedIff(spec, c);
      case Not(x) => NoSecretNamed(spec, ctx, x);
      case Either(l, r) => NoSecretNamed(spec, ctx, l); NoSecretNamed(spec, ctx, r);
      case Both(l, r) => NoSecretNamed(spec, ctx, l); NoSecretNamed(spec, ctx, r);
      case Cmp(_, l, r) => NoSecretNamed(spec, ctx, l); NoSecretNamed(spec, ctx, r);
      case Like(_, x, p) => NoSecretNamed(spec, ctx, x); NoSecretNamed(spec, ctx, p);
      case Concat(l, r) => NoSecretNamed(spec, ctx, l); NoSecretNamed(spec, ctx, r);
      case OneOf(x, items) => NoSecretNamed(spec, ctx, x); NoSecretItems(spec, ctx, items);
      case Range(x, lo, hi) =>
        NoSecretNamed(spec, ctx, x);
        NoSecretNamed(spec, ctx, lo);
        NoSecretNamed(spec, ctx, hi);
      case NullTest(x, _) => NoSecretNamed(spec, ctx, x);
      case Subquery(sel, from, cond) => HopNamesNoSecret(spec, ctx, e);
      case _ =>
    }
  }

  lemma {:induction false} NoSecretItems(spec: CollectionSpec, ctx: Context, items: seq<SqlText.Expr>)
    requires forall y | y in items :: ColumnsAllowed(spec, ctx, y)
    ensures NoSecret(spec, NamedBy(items))
    decreases items
  {
    hide ColumnsAllowed, Named, IsRelation;
    if items != [] {
      NoSecretNamed(spec, ctx, items[0]);
      NoSecretItems(spec, ctx, items[1..]);
    }
  }

  lemma {:induction false} HopNamesNoSecret(spec: CollectionSpec, ctx: Context, e: SqlText.Expr)
    requires e.Subquery? && ColumnsAllowed(spec, ctx, e)
    ensures NoSecret(spec, Named(e))
  {
    hide ColumnAllowed, FindRelation, FirstRelation;
    var related := Hop(spec, ctx, e.cond.r.name).value;
    ColumnAllowedIff(related, e.sel.name);
    RelationIff(spec.fields, e.cond.r.name);
    assert Named(e.cond) == {"id"} + {e.cond.r.name};
  }

  /** No compiled text names a credential column, but for a relation field that
      is declared under such a name. */
  lemma {:induction false} NoCredentialNamed(spec: CollectionSpec, ctx: Context, n: Node, start: nat)
    requires WellFormed(n) && FilterCompiled.ValidNames(spec, ctx) && Emit(spec, ctx, n, start).Ok?
    ensures var e := SqlText.SqlRead(Emit(spec, ctx, n, start).value.text);
            e.Some? && NoSecret(spec, Named(e.value))
  {
    hide WellFormed, FilterCompiled.ValidNames, Emit, ColumnsAllowed, SqlText.SqlRead, Named, NoSecret;
    EveryColumnAllowed(spec, ctx, n, start);
    NoSecretNamed(spec, ctx, SqlText.SqlRead(Emit(spec, ctx, n, start).value.text).value);
  }
}
