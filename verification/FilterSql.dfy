/** internal/filter/sql.go: from the AST to SQL text with `$N` placeholders.
    `Emit` gives the text and arguments of one node; the class is the source's
    compiler, which appends to its fields. */
module FilterSql {
  import opened Text
  import opened FilterAst

  datatype FieldType =
    | TypeText | TypeNumber | TypeBool | TypeDate | TypeEmail | TypeURL | TypeJSON | TypeSelect
    | TypeMultiSelect | TypeFile | TypeFiles | TypeRelation | TypeRelations | TypePassword | TypeRichText
    | TypeTel | TypePersonName | TypeAddress | TypeTaxID | TypeBarcode | TypeCurrency | TypeMoneyRange
    | TypeDateRange | TypeTimeRange | TypeBankAccount | TypeQRCode | TypeSlug | TypeSequentialCode
    | TypeColor | TypeCron | TypeMarkdown | TypeFinance | TypePercentage | TypeCountry | TypeTimezone
    | TypeLanguage | TypeLocale | TypeCoordinates | TypeIBAN | TypeBIC | TypeQuantity | TypeDuration
    | TypeStatus | TypePriority | TypeRating | TypeTags | TypeTreePath

  datatype FieldSpec = FieldSpec(name: string, ftype: FieldType, related: string)

  datatype CollectionSpec = CollectionSpec(
    name: string, tenant: bool, auth: bool, adjacencyList: bool, ordered: bool, fields: seq<FieldSpec>)

  /** `schema` is the resolver of collection names, when one is wired. */
  datatype Context = Context(authId: string, authCollection: string, schema: Option<map<string, CollectionSpec>>)

  /** Values bound to placeholders and held in columns. */
  datatype Value = Null | Str(s: string) | Int(i: int) | Dec(mant: nat, scale: nat) | Bool(b: bool)

  datatype CompileError =
    | NullOutsideComparison | UnknownField | TooManyHops | NotARelation | NoResolver
    | UnknownCollection | UnknownRelatedField | UnsupportedOperator | MalformedPath

  const AUTH_ID_NAMES: set<string> := {"@request.auth.id", "@me"}

  function FindField(fields: seq<FieldSpec>, name: string): Option<FieldSpec> {
    if fields == [] then None
    else if fields[0].name == name then Some(fields[0])
    else FindField(fields[1..], name)
  }

  /** The first field that has this name and is a relation. */
  function FindRelation(fields: seq<FieldSpec>, name: string): Option<FieldSpec> {
    if fields == [] then None
    else if fields[0].name == name && fields[0].ftype == TypeRelation then Some(fields[0])
    else FindRelation(fields[1..], name)
  }

  predicate Filterable(t: FieldType) {
    t !in {TypeJSON, TypeFiles, TypeFile, TypeMultiSelect, TypeRelations, TypePassword, TypePersonName,
           TypeQuantity, TypeCoordinates, TypeAddress, TypeMoneyRange, TypeDateRange, TypeTimeRange,
           TypeBankAccount, TypeTags, TypeTreePath}
  }

  predicate ColumnAllowed(spec: CollectionSpec, name: string) {
    if name == "id" || name == "created" || name == "updated" then true
    else if name == "tenant_id" then spec.tenant
    else if name == "email" || name == "verified" || name == "last_login_at" then spec.auth
    else if name == "parent" then spec.adjacencyList
    else if name == "sort_index" then spec.ordered
    else if name == "password_hash" || name == "token_key" then false
    else
      match FindField(spec.fields, name)
      case None => false
      case Some(f) => Filterable(f.ftype)
  }

  predicate HasUuidColumn(spec: CollectionSpec, name: string) {
    if name == "id" then true
    else if name == "tenant_id" then spec.tenant
    else if name == "parent" then spec.adjacencyList
    else
      match FindField(spec.fields, name)
      case None => false
      case Some(f) => f.ftype == TypeRelation
  }

  /** The collection one hop away through the relation field `rel`. */
  function Hop(spec: CollectionSpec, ctx: Context, rel: string): Result<CollectionSpec, CompileError> {
    match FindRelation(spec.fields, rel)
    case None => Err(NotARelation)
    case Some(f) =>
      match ctx.schema
      case None => Err(NoResolver)
      case Some(m) => if f.related in m then Ok(m[f.related]) else Err(UnknownCollection)
  }

  /** `magic` is the auth id and `column` names a UUID column. */
  predicate CompareIsAnonUuid(spec: CollectionSpec, ctx: Context, magic: Node, column: Node) {
    && magic.MagicVar? && magic.name in AUTH_ID_NAMES
    && column.Ident?
    && if column.dottedPath == "" then HasUuidColumn(spec, column.name)
       else
         var path := Split(column.dottedPath, '.');
         && |path| == 2
         && var related := Hop(spec, ctx, path[0]);
            related.Ok? && HasUuidColumn(related.value, path[1])
  }

  // ---- what a node compiles to -------------------------------------------------

  datatype Piece = Piece(text: string, args: seq<Value>)

  type Emitted = Result<Piece, CompileError>

  function Param(next: nat, v: Value): Emitted { Ok(Piece("$" + Decimal(next), [v])) }

  function MagicValue(ctx: Context, name: string): Value {
    if name in AUTH_ID_NAMES then Str(ctx.authId)
    else if name == "@request.auth.collectionName" then Str(ctx.authCollection)
    else Null
  }

  function SubqueryText(related: string, column: string, current: string, rel: string): string {
    "(SELECT " + related + "." + column + " FROM " + related + " WHERE " + related + ".id = "
    + current + "." + rel + ")"
  }

  function EmitIdent(spec: CollectionSpec, ctx: Context, name: string, dottedPath: string): Emitted {
    if dottedPath == "" then
      if ColumnAllowed(spec, name) then Ok(Piece(name, [])) else Err(UnknownField)
    else
      var path := Split(dottedPath, '.');
      if |path| > 2 then Err(TooManyHops)
      else if |path| < 2 then Err(MalformedPath)  // no parsed tree gets here; the source would index out of range
      else
        var related :- Hop(spec, ctx, path[0]);
        if !ColumnAllowed(related, path[1]) then Err(UnknownRelatedField)
        else Ok(Piece(SubqueryText(related.name, path[1], spec.name, path[0]), []))
  }

  function Size(n: Node): (k: nat)
    ensures k > 0
  {
    match n
    case Or(l, r) => 1 + Size(l) + Size(r)
    case And(l, r) => 1 + Size(l) + Size(r)
    case Compare(_, l, r) => 1 + Size(l) + Size(r)
    case In(t, items) => 1 + Size(t) + SizeAll(items)
    case Between(t, lo, hi) => 1 + Size(t) + Size(lo) + Size(hi)
    case IsNull(t) => 1 + Size(t)
    case IsNotNull(t) => 1 + Size(t)
    case _ => 1
  }

  function SizeAll(items: seq<Node>): nat {
    if items == [] then 0 else Size(items[0]) + SizeAll(items[1..])
  }

  /** `(` l mid r close, the second part numbered after the first. */
  function Infix(spec: CollectionSpec, ctx: Context, l: Node, mid: string, r: Node, close: string, next: nat): Emitted
    decreases Size(l) + Size(r), 1
  {
    var a :- Emit(spec, ctx, l, next);
    var b :- Emit(spec, ctx, r, next + |a.args|);
    Ok(Piece("(" + a.text + mid + b.text + close, a.args + b.args))
  }

  function Postfix(spec: CollectionSpec, ctx: Context, t: Node, close: string, next: nat): Emitted
    decreases Size(t), 1
  {
    var a :- Emit(spec, ctx, t, next);
    Ok(Piece("(" + a.text + close, a.args))
  }

  predicate IsComparison(op: string) {
    op == "=" || op == "!=" || op == ">" || op == "<" || op == ">=" || op == "<="
  }

  function EmitCompare(spec: CollectionSpec, ctx: Context, op: string, l: Node, r: Node, next: nat): Emitted
    decreases Size(l) + Size(r), 2
  {
    if l.NullLit? && op == "=" then Postfix(spec, ctx, r, " IS NULL)", next)
    else if l.NullLit? && op == "!=" then Postfix(spec, ctx, r, " IS NOT NULL)", next)
    else if r.NullLit? && op == "=" then Postfix(spec, ctx, l, " IS NULL)", next)
    else if r.NullLit? && op == "!=" then Postfix(spec, ctx, l, " IS NOT NULL)", next)
    else if ctx.authId == "" && (CompareIsAnonUuid(spec, ctx, l, r) || CompareIsAnonUuid(spec, ctx, r, l)) then
      Ok(Piece("(false)", []))
    else if op == "~" then Infix(spec, ctx, l, " ILIKE ('%' || ", r, " || '%'))", next)
    else if op == "!~" then Infix(spec, ctx, l, " NOT ILIKE ('%' || ", r, " || '%'))", next)
    else if IsComparison(op) then Infix(spec, ctx, l, " " + op + " ", r, ")", next)
    else Err(UnsupportedOperator)
  }

  /** The items after the first, each behind a comma. */
  function EmitItems(spec: CollectionSpec, ctx: Context, items: seq<Node>, first: bool, next: nat): Emitted
    decreases SizeAll(items), |items|
  {
    if items == [] then Ok(Piece("", []))
    else
      var a :- Emit(spec, ctx, items[0], next);
      var b :- EmitItems(spec, ctx, items[1..], false, next + |a.args|);
      Ok(Piece((if first then "" else ", ") + a.text + b.text, a.args + b.args))
  }

  function InPiece(spec: CollectionSpec, ctx: Context, t: Node, items: seq<Node>, next: nat): Emitted
    decreases Size(t) + SizeAll(items), |items| + 1
  {
    var a :- Emit(spec, ctx, t, next);
    var b :- EmitItems(spec, ctx, items, true, next + |a.args|);
    Ok(Piece("(" + a.text + " IN (" + b.text + "))", a.args + b.args))
  }

  function BetweenPiece(spec: CollectionSpec, ctx: Context, t: Node, lo: Node, hi: Node, next: nat): Emitted
    decreases Size(t) + Size(lo) + Size(hi), 1
  {
    var a :- Emit(spec, ctx, t, next);
    var b :- Emit(spec, ctx, lo, next + |a.args|);
    var c :- Emit(spec, ctx, hi, next + |a.args| + |b.args|);
    Ok(Piece("(" + a.text + " BETWEEN " + b.text + " AND " + c.text + ")", a.args + b.args + c.args))
  }

  function Emit(spec: CollectionSpec, ctx: Context, n: Node, next: nat): Emitted
    decreases Size(n), 0
  {
    match n
    case Or(l, r) => Infix(spec, ctx, l, " OR ", r, ")", next)
    case And(l, r) => Infix(spec, ctx, l, " AND ", r, ")", next)
    case Compare(op, l, r) => EmitCompare(spec, ctx, op, l, r, next)
    case In(t, items) => InPiece(spec, ctx, t, items, next)
    case Between(t, lo, hi) => BetweenPiece(spec, ctx, t, lo, hi, next)
    case IsNull(t) => Postfix(spec, ctx, t, " IS NULL)", next)
    case IsNotNull(t) => Postfix(spec, ctx, t, " IS NOT NULL)", next)
    case Ident(name, path) => EmitIdent(spec, ctx, name, path)
    case MagicVar(name) => Param(next, MagicValue(ctx, name))
    case StringLit(s) => Param(next, Str(s))
    case IntLit(i) => Param(next, Int(i))
    case FloatLit(m, k) => Param(next, Dec(m, k))
    case BoolLit(b) => Param(next, Bool(b))
    case NullLit => Err(NullOutsideComparison)
  }

  // ---- the compiler object --------------------------------------------------------

  class Compiler {
    const spec: CollectionSpec
    const ctx: Context
    var b: string
    var args: seq<Value>
    var next: nat

    constructor (spec: CollectionSpec, ctx: Context, startParam: nat)
      ensures this.spec == spec && this.ctx == ctx
      ensures b == "" && args == [] && next == startParam
    {
      this.spec := spec;
      this.ctx := ctx;
      b := "";
      args := [];
      next := startParam;
    }

    /** The fields grew by exactly what was emitted; on failure they are discarded. */
    ghost predicate Grew(b0: string, args0: seq<Value>, next0: nat, e: Emitted, err: Option<CompileError>)
      reads this
    {
      match e
      case Ok(p) => err == None && b == b0 + p.text && args == args0 + p.args && next == next0 + |p.args|
      case Err(x) => err == Some(x)
    }

    method Bind(v: Value)
      modifies this
      ensures Grew(old(b), old(args), old(next), Param(old(next), v), None)
    {
      args := args + [v];
      b := b + "$" + Decimal(next);
      next := next + 1;
    }

    method EmitNode(n: Node) returns (err: Option<CompileError>)
      modifies this
      ensures Grew(old(b), old(args), old(next), Emit(spec, ctx, n, old(next)), err)
      decreases Size(n), 0
    {
      match n {
        case Or(l, r) =>
          err := EmitInfix(l, " OR ", r, ")");
        case And(l, r) =>
          err := EmitInfix(l, " AND ", r, ")");
        case Compare(op, l, r) =>
          err := EmitComparison(op, l, r);
        case In(t, items) =>
          err := EmitInList(t, items);
        case Between(t, lo, hi) =>
          err := EmitBetween(t, lo, hi);
        case IsNull(t) =>
          err := EmitPostfix(t, " IS NULL)");
        case IsNotNull(t) =>
          err := EmitPostfix(t, " IS NOT NULL)");
        case Ident(name, path) =>
          var e := EmitIdent(spec, ctx, name, path);
          match e {
            case Ok(p) =>
              b := b + p.text;
              return None;
            case Err(x) =>
              return Some(x);
          }
        case MagicVar(name) =>
          Bind(MagicValue(ctx, name));
          return None;
        case StringLit(s) =>
          Bind(Str(s));
          return None;
        case IntLit(i) =>
          Bind(Int(i));
          return None;
        case FloatLit(m, k) =>
          Bind(Dec(m, k));
          return None;
        case BoolLit(v) =>
          Bind(Bool(v));
          return None;
        case NullLit =>
          return Some(NullOutsideComparison);
      }
    }

    method EmitInfix(l: Node, mid: string, r: Node, close: string) returns (err: Option<CompileError>)
      modifies this
      ensures Grew(old(b), old(args), old(next), Infix(spec, ctx, l, mid, r, close, old(next)), err)
      decreases Size(l) + Size(r), 1
    {
      hide Emit;
      b := b + "(";
      err := EmitNode(l);
      if err.Some? {
        return;
      }
      b := b + mid;
      ghost var next1 := next;
      err := EmitNode(r);
      if err.Some? {
        return;
      }
      b := b + close;
      ghost var x, y := Emit(spec, ctx, l, old(next)).value, Emit(spec, ctx, r, next1).value;
      assert old(b) + "(" + x.text + mid + y.text + close == old(b) + ("(" + x.text + mid + y.text + close);
      assert old(args) + x.args + y.args == old(args) + (x.args + y.args);
    }

    method EmitPostfix(t: Node, close: string) returns (err: Option<CompileError>)
      modifies this
      ensures Grew(old(b), old(args), old(next), Postfix(spec, ctx, t, close, old(next)), err)
      decreases Size(t), 1
    {
      hide Emit;
      b := b + "(";
      err := EmitNode(t);
      if err.Some? {
        return;
      }
      b := b + close;
    }

    method EmitComparison(op: string, l: Node, r: Node) returns (err: Option<CompileError>)
      modifies this
      ensures Grew(old(b), old(args), old(next), EmitCompare(spec, ctx, op, l, r, old(next)), err)
      decreases Size(l) + Size(r), 2
    {
      hide Emit, Infix, Postfix, CompareIsAnonUuid;
      if l.NullLit? && op == "=" {
        err := EmitPostfix(r, " IS NULL)");
      } else if l.NullLit? && op == "!=" {
        err := EmitPostfix(r, " IS NOT NULL)");
      } else if r.NullLit? && op == "=" {
        err := EmitPostfix(l, " IS NULL)");
      } else if r.NullLit? && op == "!=" {
        err := EmitPostfix(l, " IS NOT NULL)");
      } else if ctx.authId == "" && (CompareIsAnonUuid(spec, ctx, l, r) || CompareIsAnonUuid(spec, ctx, r, l)) {
        b := b + "(false)";
        return None;
      } else if op == "~" {
        err := EmitInfix(l, " ILIKE ('%' || ", r, " || '%'))");
      } else if op == "!~" {
        err := EmitInfix(l, " NOT ILIKE ('%' || ", r, " || '%'))");
      } else if IsComparison(op) {
        err := EmitInfix(l, " " + op + " ", r, ")");
      } else {
        err := Some(UnsupportedOperator);
      }
    }

    method EmitBetween(t: Node, lo: Node, hi: Node) returns (err: Option<CompileError>)
      modifies this
      ensures Grew(old(b), old(args), old(next), BetweenPiece(spec, ctx, t, lo, hi, old(next)), err)
      decreases Size(t) + Size(lo) + Size(hi), 2
    {
      hide Emit;
      b := b + "(";
      err := EmitNode(t);
      if err.Some? {
        return;
      }
      b := b + " BETWEEN ";
      ghost var b1, args1, next1 := b, args, next;
      err := EmitNode(lo);
      if err.Some? {
        return;
      }
      b := b + " AND ";
      ghost var next2 := next;
      err := EmitNode(hi);
      if err.Some? {
        return;
      }
      b := b + ")";
      ghost var x, y, z := Emit(spec, ctx, t, old(next)).value, Emit(spec, ctx, lo, next1).value,
        Emit(spec, ctx, hi, next2).value;
      SevenParts(old(b), "(", x.text, " BETWEEN ", y.text, " AND ", z.text, ")");
      assert old(args) + x.args + y.args + z.args == old(args) + (x.args + y.args + z.args);
    }

    method EmitInList(t: Node, items: seq<Node>) returns (err: Option<CompileError>)
      modifies this
      ensures Grew(old(b), old(args), old(next), InPiece(spec, ctx, t, items, old(next)), err)
      decreases Size(t) + SizeAll(items), 2
    {
      hide Emit;
      b := b + "(";
      err := EmitNode(t);
      if err.Some? {
        return;
      }
      b := b + " IN (";
      ghost var x := Emit(spec, ctx, t, old(next)).value;
      ghost var b0, args0, next0 := b, args, next;
      err := EmitItemList(items);
      if err.Some? {
        return;
      }
      ghost var y := EmitItems(spec, ctx, items, true, next0).value;
      b := b + "))";
      assert old(b) + "(" + x.text + " IN (" + y.text + "))" == old(b) + ("(" + x.text + " IN (" + y.text + "))");
      assert old(args) + x.args + y.args == old(args) + (x.args + y.args);
    }

    method EmitItemList(items: seq<Node>) returns (err: Option<CompileError>)
      modifies this
      ensures Grew(old(b), old(args), old(next), EmitItems(spec, ctx, items, true, old(next)), err)
      decreases SizeAll(items), |items|, 1
    {
      hide Emit, EmitItems, Prefixed;
      ghost var b0, args0, next0 := b, args, next;
      ghost var whole := EmitItems(spec, ctx, items, true, next);
      ghost var done := Piece("", []);
      var i := 0;
      NothingDone(whole);
      assert items[0..] == items && b0 + "" == b0;
      while i < |items|
        invariant 0 <= i <= |items|
        invariant b == b0 + done.text && args == args0 + done.args && next == next0 + |done.args|
        invariant whole == Prefixed(done, EmitItems(spec, ctx, items[i..], i == 0, next))
      {
        ItemsSize(items, i);
        ItemStep(spec, ctx, items, i, next, done);
        ghost var x := Emit(spec, ctx, items[i], next);
        ghost var b1, args1 := b, args;
        if i > 0 {
          b := b + ", ";
        }
        err := EmitNode(items[i]);
        if err.Some? {
          return;
        }
        assert b1 + Separator(i) + x.value.text == b0 + (done.text + Separator(i) + x.value.text);
        assert args1 + x.value.args == args0 + (done.args + x.value.args);
        done := Piece(done.text + Separator(i) + x.value.text, done.args + x.value.args);
        i := i + 1;
      }
      AllDone(spec, ctx, next, i == 0, done);
      assert items[i..] == [];
      return None;
    }
  }

  function Separator(i: nat): string { if i == 0 then "" else ", " }

  lemma NothingDone(whole: Emitted)
    ensures Prefixed(Piece("", []), whole) == whole
  {
    if whole.Ok? { assert "" + whole.value.text == whole.value.text && [] + whole.value.args == whole.value.args; }
  }

  lemma AllDone(spec: CollectionSpec, ctx: Context, next: nat, first: bool, done: Piece)
    ensures Prefixed(done, EmitItems(spec, ctx, [], first, next)) == Ok(done)
  {
    assert done.text + "" == done.text && done.args + [] == done.args;
  }

  /** One more item moves from the rest to what is done, or its error is the whole's. */
  lemma ItemStep(spec: CollectionSpec, ctx: Context, items: seq<Node>, i: nat, next: nat, done: Piece)
    requires i < |items|
    ensures Prefixed(done, EmitItems(spec, ctx, items[i..], i == 0, next)) ==
            match Emit(spec, ctx, items[i], next)
            case Err(e) => Err(e)
            case Ok(x) =>
              Prefixed(Piece(done.text + Separator(i) + x.text, done.args + x.args),
                       EmitItems(spec, ctx, items[i + 1..], false, next + |x.args|))
  {
    hide Emit;
    assert items[i..][0] == items[i] && items[i..][1..] == items[i + 1..];
    if Emit(spec, ctx, items[i], next).Ok? {
      var x := Emit(spec, ctx, items[i], next).value;
      PrefixedStep(done, Separator(i), x, EmitItems(spec, ctx, items[i + 1..], false, next + |x.args|));
    }
  }

  lemma SevenParts(b: string, p: string, x: string, q: string, y: string, r: string, z: string, s: string)
    ensures b + p + x + q + y + r + z + s == b + (p + x + q + y + r + z + s)
  {
  }

  /** What the items already written add in front of the rest. */
  function Prefixed(done: Piece, rest: Emitted): Emitted {
    match rest
    case Ok(p) => Ok(Piece(done.text + p.text, done.args + p.args))
    case Err(x) => Err(x)
  }

  lemma PrefixedStep(done: Piece, sep: string, x: Piece, rest: Emitted)
    ensures rest.Err? ||
      Prefixed(done, Ok(Piece(sep + x.text + rest.value.text, x.args + rest.value.args)))
      == Prefixed(Piece(done.text + sep + x.text, done.args + x.args), rest)
  {
    if rest.Ok? {
      var p := rest.value;
      assert done.text + (sep + x.text + p.text) == done.text + sep + x.text + p.text;
      assert done.args + (x.args + p.args) == done.args + x.args + p.args;
    }
  }

  lemma ItemsSize(items: seq<Node>, i: nat)
    requires i < |items|
    ensures Size(items[i]) <= SizeAll(items)
  {
    if i > 0 {
      ItemsSize(items[1..], i - 1);
    }
  }

  /** `Compile`: the text, the arguments and the next free placeholder. */
  method Compile(n: Node, spec: CollectionSpec, ctx: Context, startParam: nat)
    returns (sql: string, args: seq<Value>, nextParam: nat, err: Option<CompileError>)
    ensures match Emit(spec, ctx, n, startParam)
            case Ok(p) => err == None && sql == p.text && args == p.args && nextParam == startParam + |p.args|
            case Err(x) => err == Some(x) && sql == "" && args == [] && nextParam == startParam
  {
    var c := new Compiler(spec, ctx, startParam);
    err := c.EmitNode(n);
    if err.Some? {
      return "", [], startParam, err;
    }
    return c.b, c.args, c.next, None;
  }
}
