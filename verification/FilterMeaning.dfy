/** What a filter means on a row, what the compiled SQL means on the same row,
    and the proof that compiling keeps the meaning. */
module FilterMeaning {
  import opened Text
  import opened FilterAst
  import opened FilterSql
  import SqlText
  import SqlShow
  import SqlReadBack

  type Expr = SqlText.Expr

  // ---- the data -------------------------------------------------------------------

  type Row = map<string, Value>

  type Db = map<string, seq<Row>>

  /** The database's comparison of two non-null values (coercions and collation
      included) and its text form of a value. */
  datatype Rules = Rules(cmp: (string, Value, Value) -> bool, text: Value -> string)

  function CellOf(row: Row, col: string): Value {
    if col in row then row[col] else Null
  }

  // ---- three-valued logic ------------------------------------------------------------

  const TRUE := Bool(true)
  const FALSE := Bool(false)

  /** A condition that is neither TRUE nor FALSE counts as unknown. */
  function And3(a: Value, b: Value): Value {
    if a == FALSE || b == FALSE then FALSE else if a == TRUE && b == TRUE then TRUE else Null
  }

  function Or3(a: Value, b: Value): Value {
    if a == TRUE || b == TRUE then TRUE else if a == FALSE && b == FALSE then FALSE else Null
  }

  function Not3(a: Value): Value {
    if a == TRUE then FALSE else if a == FALSE then TRUE else Null
  }

  function Compare3(rules: Rules, op: string, a: Value, b: Value): Value {
    if a == Null || b == Null then Null else Bool(rules.cmp(op, a, b))
  }

  function Concat3(rules: Rules, a: Value, b: Value): Value {
    if a == Null || b == Null then Null else Str(rules.text(a) + rules.text(b))
  }

  /** ILIKE: `%` any run, `_` any character, `\` quotes the next one. */
  predicate ILikeMatch(s: string, p: string)
    decreases |p|, |s|
  {
    if p == "" then s == ""
    else if p[0] == '%' then ILikeMatch(s, p[1..]) || (s != "" && ILikeMatch(s[1..], p))
    else if p[0] == '\\' && |p| > 1 then
      s != "" && ToLowerChar(s[0]) == ToLowerChar(p[1]) && ILikeMatch(s[1..], p[2..])
    else
      s != "" && (p[0] == '_' || ToLowerChar(s[0]) == ToLowerChar(p[0])) && ILikeMatch(s[1..], p[1..])
  }

  function ILike3(rules: Rules, a: Value, p: Value): Value {
    if a == Null || p == Null then Null else Bool(ILikeMatch(rules.text(a), rules.text(p)))
  }

  // ---- the meaning of a filter -----------------------------------------------------------

  /** The cell `col` of the record of `rows` whose id is `key`. */
  function RelatedCell(rules: Rules, rows: seq<Row>, key: Value, col: string): Value {
    if rows == [] || key == Null then Null
    else if Compare3(rules, "=", CellOf(rows[0], "id"), key) == TRUE then CellOf(rows[0], col)
    else RelatedCell(rules, rows[1..], key, col)
  }

  function RowsOf(db: Db, table: string): seq<Row> {
    if table in db then db[table] else []
  }

  /** The variables: the id of whoever asks, under two names, and the collection they are in. */
  function Principal(ctx: Context, name: string): Value {
    match name
    case "@me" => Str(ctx.authId)
    case "@request.auth.id" => Str(ctx.authId)
    case "@request.auth.collectionName" => Str(ctx.authCollection)
    case _ => Null
  }

  /** A column of the row, or of the record its relation field points to. */
  function IdentMeaning(rules: Rules, db: Db, spec: CollectionSpec, ctx: Context, row: Row, name: string,
          dotted: string): Value
  {
    if dotted == "" then CellOf(row, name)
    else
      var path := Split(dotted, '.');
      if |path| != 2 then Null
      else
        match Hop(spec, ctx, path[0])
        case Err(_) => Null
        case Ok(related) => RelatedCell(rules, RowsOf(db, related.name), CellOf(row, path[0]), path[1])
  }

  /** An anonymous principal against a UUID column, on either side. */
  predicate DeniedCompare(spec: CollectionSpec, ctx: Context, l: Node, r: Node) {
    ctx.authId == "" && (CompareIsAnonUuid(spec, ctx, l, r) || CompareIsAnonUuid(spec, ctx, r, l))
  }

  /** TRUE when some item equals `v`, unknown when none does but one might. */
  ghost function Member3(rules: Rules, v: Value, items: seq<Value>): Value {
    if exists i :: 0 <= i < |items| && Compare3(rules, "=", v, items[i]) == TRUE then TRUE
    else if exists i :: 0 <= i < |items| && Compare3(rules, "=", v, items[i]) == Null then Null
    else FALSE
  }

  /** `a ~ b`: ILIKE with `b` between two `%`. */
  function Like3(rules: Rules, a: Value, b: Value): Value {
    if a == Null || b == Null then Null else Bool(ILikeMatch(rules.text(a), "%" + rules.text(b) + "%"))
  }

  ghost function CompareMeaning(rules: Rules, spec: CollectionSpec, ctx: Context, op: string, l: Node, r: Node,
          a: Value, b: Value): Value
  {
    if (l.NullLit? || r.NullLit?) && (op == "=" || op == "!=") then
      var tested := if l.NullLit? then b else a;
      Bool((tested == Null) == (op == "="))
    else if DeniedCompare(spec, ctx, l, r) then FALSE
    else if op == "~" then Like3(rules, a, b)
    else if op == "!~" then Not3(Like3(rules, a, b))
    else Compare3(rules, op, a, b)
  }

  ghost function Meaning(rules: Rules, db: Db, spec: CollectionSpec, ctx: Context, row: Row, n: Node): Value
    decreases n
  {
    match n
    case Or(l, r) => Or3(Meaning(rules, db, spec, ctx, row, l), Meaning(rules, db, spec, ctx, row, r))
    case And(l, r) => And3(Meaning(rules, db, spec, ctx, row, l), Meaning(rules, db, spec, ctx, row, r))
    case Compare(op, l, r) =>
      CompareMeaning(rules, spec, ctx, op, l, r,
                     Meaning(rules, db, spec, ctx, row, l), Meaning(rules, db, spec, ctx, row, r))
    case In(t, items) =>
      Member3(rules, Meaning(rules, db, spec, ctx, row, t),
              seq(|items|, i requires 0 <= i < |items| => Meaning(rules, db, spec, ctx, row, items[i])))
    case Between(t, lo, hi) =>
      var v := Meaning(rules, db, spec, ctx, row, t);
      And3(Compare3(rules, ">=", v, Meaning(rules, db, spec, ctx, row, lo)),
           Compare3(rules, "<=", v, Meaning(rules, db, spec, ctx, row, hi)))
    case IsNull(t) => Bool(Meaning(rules, db, spec, ctx, row, t) == Null)
    case IsNotNull(t) => Bool(Meaning(rules, db, spec, ctx, row, t) != Null)
    case Ident(name, path) => IdentMeaning(rules, db, spec, ctx, row, name, path)
    case MagicVar(name) => Principal(ctx, name)
    case StringLit(s) => Str(s)
    case IntLit(i) => Int(i)
    case FloatLit(m, k) => Dec(m, k)
    case BoolLit(b) => Bool(b)
    case NullLit => Null
  }

  // ---- the meaning of SQL --------------------------------------------------------------------

  /** Rows in scope, the innermost query first. */
  type Scopes = seq<(string, Row)>

  function Unqualified(scopes: Scopes, col: string): Value {
    if scopes == [] then Null
    else if col in scopes[0].1 then scopes[0].1[col]
    else Unqualified(scopes[1..], col)
  }

  function Qualified(scopes: Scopes, table: string, col: string): Value {
    if scopes == [] then Null
    else if scopes[0].0 == table then CellOf(scopes[0].1, col)
    else Qualified(scopes[1..], table, col)
  }

  /** Placeholder `$k` is bound to `args[k - start]`. */
  function BoundTo(args: seq<Value>, start: nat, k: nat): Value {
    if start <= k < start + |args| then args[k - start] else Null
  }

  /** `v IN (items)` as the standard expands it: a disjunction of equalities. */
  function InList(rules: Rules, v: Value, items: seq<Value>): Value {
    if items == [] then FALSE else Or3(Compare3(rules, "=", v, items[0]), InList(rules, v, items[1..]))
  }

  ghost function Eval(rules: Rules, db: Db, scopes: Scopes, args: seq<Value>, start: nat, e: Expr): Value
    decreases e, 1, 0
  {
    match e
    case Col(c) => Unqualified(scopes, c)
    case QCol(t, c) => Qualified(scopes, t, c)
    case Arg(k) => BoundTo(args, start, k)
    case Quoted(s) => Str(s)
    case False => FALSE
    case Not(x) => Not3(Eval(rules, db, scopes, args, start, x))
    case Either(l, r) => Or3(Eval(rules, db, scopes, args, start, l), Eval(rules, db, scopes, args, start, r))
    case Both(l, r) => And3(Eval(rules, db, scopes, args, start, l), Eval(rules, db, scopes, args, start, r))
    case Cmp(op, l, r) =>
      Compare3(rules, op, Eval(rules, db, scopes, args, start, l), Eval(rules, db, scopes, args, start, r))
    case Like(negate, x, p) =>
      var v := ILike3(rules, Eval(rules, db, scopes, args, start, x), Eval(rules, db, scopes, args, start, p));
      if negate then Not3(v) else v
    case Concat(l, r) =>
      Concat3(rules, Eval(rules, db, scopes, args, start, l), Eval(rules, db, scopes, args, start, r))
    case OneOf(x, items) =>
      InList(rules, Eval(rules, db, scopes, args, start, x),
             seq(|items|, i requires 0 <= i < |items| => Eval(rules, db, scopes, args, start, items[i])))
    case Range(x, lo, hi) =>
      var v := Eval(rules, db, scopes, args, start, x);
      And3(Compare3(rules, ">=", v, Eval(rules, db, scopes, args, start, lo)),
           Compare3(rules, "<=", v, Eval(rules, db, scopes, args, start, hi)))
    case NullTest(x, negate) => Bool((Eval(rules, db, scopes, args, start, x) == Null) != negate)
    case Subquery(sel, from, cond) => Select(rules, db, scopes, args, start, e, RowsOf(db, from))
  }

  /** A scalar subquery: the selected value in the first row its condition accepts. */
  ghost function Select(rules: Rules, db: Db, scopes: Scopes, args: seq<Value>, start: nat, e: Expr,
          rows: seq<Row>): Value
    requires e.Subquery?
    decreases e, 0, |rows|
  {
    if rows == [] then Null
    else
      var inner := [(e.from, rows[0])] + scopes;
      if Eval(rules, db, inner, args, start, e.cond) == TRUE then Eval(rules, db, inner, args, start, e.sel)
      else Select(rules, db, scopes, args, start, e, rows[1..])
  }

  // ---- the expression a filter compiles to ------------------------------------------------------

  predicate IsNullTest(op: string, l: Node, r: Node) { (l.NullLit? || r.NullLit?) && (op == "=" || op == "!=") }

  function CompareLeaves(spec: CollectionSpec, ctx: Context, op: string, l: Node, r: Node, a: seq<Value>,
          b: seq<Value>): seq<Value>
  {
    if IsNullTest(op, l, r) then (if l.NullLit? then b else a)
    else if DeniedCompare(spec, ctx, l, r) then []
    else a + b
  }

  /** The bound values, left to right. */
  function Leaves(spec: CollectionSpec, ctx: Context, n: Node): seq<Value>
    decreases n
  {
    match n
    case Or(l, r) => Leaves(spec, ctx, l) + Leaves(spec, ctx, r)
    case And(l, r) => Leaves(spec, ctx, l) + Leaves(spec, ctx, r)
    case Compare(op, l, r) => CompareLeaves(spec, ctx, op, l, r, Leaves(spec, ctx, l), Leaves(spec, ctx, r))
    case In(t, items) => Leaves(spec, ctx, t) + LeavesOf(spec, ctx, items)
    case Between(t, lo, hi) => Leaves(spec, ctx, t) + Leaves(spec, ctx, lo) + Leaves(spec, ctx, hi)
    case IsNull(t) => Leaves(spec, ctx, t)
    case IsNotNull(t) => Leaves(spec, ctx, t)
    case Ident(_, _) => []
    case MagicVar(name) => [Principal(ctx, name)]
    case StringLit(s) => [Str(s)]
    case IntLit(i) => [Int(i)]
    case FloatLit(m, k) => [Dec(m, k)]
    case BoolLit(b) => [Bool(b)]
    case NullLit => []
  }

  function LeavesOf(spec: CollectionSpec, ctx: Context, items: seq<Node>): seq<Value>
    decreases items
  {
    if items == [] then [] else Leaves(spec, ctx, items[0]) + LeavesOf(spec, ctx, items[1..])
  }

  function IdentTree(spec: CollectionSpec, ctx: Context, name: string, dotted: string): Expr {
    if dotted == "" then SqlText.Col(name)
    else
      var path := Split(dotted, '.');
      if |path| != 2 then SqlText.False
      else
        match Hop(spec, ctx, path[0])
        case Err(_) => SqlText.False
        case Ok(related) =>
          SqlText.Subquery(SqlText.QCol(related.name, path[1]), related.name,
                           SqlText.Cmp("=", SqlText.QCol(related.name, "id"), SqlText.QCol(spec.name, path[0])))
  }

  function CompareTree(spec: CollectionSpec, ctx: Context, op: string, l: Node, r: Node, a: Expr, b: Expr): Expr {
    if IsNullTest(op, l, r) then
      SqlText.NullTest(if l.NullLit? then b else a, op == "!=")
    else if DeniedCompare(spec, ctx, l, r) then SqlText.False
    else if op == "~" || op == "!~" then SqlText.Like(op == "!~", a, SqlShow.Pattern(b))
    else SqlText.Cmp(op, a, b)
  }

  function Tree(spec: CollectionSpec, ctx: Context, n: Node, next: nat): Expr
    decreases n
  {
    match n
    case Or(l, r) => SqlText.Either(Tree(spec, ctx, l, next), Tree(spec, ctx, r, next + |Leaves(spec, ctx, l)|))
    case And(l, r) => SqlText.Both(Tree(spec, ctx, l, next), Tree(spec, ctx, r, next + |Leaves(spec, ctx, l)|))
    case Compare(op, l, r) =>
      CompareTree(spec, ctx, op, l, r, Tree(spec, ctx, l, next), Tree(spec, ctx, r, next + |Leaves(spec, ctx, l)|))
    case In(t, items) => SqlText.OneOf(Tree(spec, ctx, t, next), Trees(spec, ctx, items, next + |Leaves(spec, ctx, t)|))
    case Between(t, lo, hi) =>
      var a := next + |Leaves(spec, ctx, t)|;
      SqlText.Range(Tree(spec, ctx, t, next), Tree(spec, ctx, lo, a), Tree(spec, ctx, hi, a + |Leaves(spec, ctx, lo)|))
    case IsNull(t) => SqlText.NullTest(Tree(spec, ctx, t, next), false)
    case IsNotNull(t) => SqlText.NullTest(Tree(spec, ctx, t, next), true)
    case Ident(name, path) => IdentTree(spec, ctx, name, path)
    case NullLit => SqlText.False
    case _ => SqlText.Arg(next)
  }

  function Trees(spec: CollectionSpec, ctx: Context, items: seq<Node>, next: nat): (es: seq<Expr>)
    ensures |es| == |items|
    decreases items
  {
    if items == [] then []
    else [Tree(spec, ctx, items[0], next)] + Trees(spec, ctx, items[1..], next + |Leaves(spec, ctx, items[0])|)
  }

  /** The one-step equations of `Tree` and `Leaves`. */
  lemma {:induction false} TreeParts(spec: CollectionSpec, ctx: Context, n: Node, next: nat)
    ensures n.Or? || n.And? || n.Compare? ==>
      var a, b := Leaves(spec, ctx, n.l), Leaves(spec, ctx, n.r);
      var x, y := Tree(spec, ctx, n.l, next), Tree(spec, ctx, n.r, next + |a|);
      && (n.Or? ==> Tree(spec, ctx, n, next) == SqlText.Either(x, y) && Leaves(spec, ctx, n) == a + b)
      && (n.And? ==> Tree(spec, ctx, n, next) == SqlText.Both(x, y) && Leaves(spec, ctx, n) == a + b)
      && (n.Compare? ==> Tree(spec, ctx, n, next) == CompareTree(spec, ctx, n.op, n.l, n.r, x, y)
                         && Leaves(spec, ctx, n) == CompareLeaves(spec, ctx, n.op, n.l, n.r, a, b))
    ensures n.In? ==>
      var a := Leaves(spec, ctx, n.target);
      && Tree(spec, ctx, n, next)
         == SqlText.OneOf(Tree(spec, ctx, n.target, next), Trees(spec, ctx, n.items, next + |a|))
      && Leaves(spec, ctx, n) == a + LeavesOf(spec, ctx, n.items)
    ensures n.Between? ==>
      var a, b := Leaves(spec, ctx, n.target), Leaves(spec, ctx, n.lo);
      && Tree(spec, ctx, n, next) == SqlText.Range(Tree(spec, ctx, n.target, next), Tree(spec, ctx, n.lo, next + |a|),
                                                   Tree(spec, ctx, n.hi, next + |a| + |b|))
      && Leaves(spec, ctx, n) == a + b + Leaves(spec, ctx, n.hi)
    ensures n.IsNull? || n.IsNotNull? ==>
      && Tree(spec, ctx, n, next) == SqlText.NullTest(Tree(spec, ctx, n.target, next), n.IsNotNull?)
      && Leaves(spec, ctx, n) == Leaves(spec, ctx, n.target)
  {
    hide CompareTree, CompareLeaves, IdentTree;
  }
}
