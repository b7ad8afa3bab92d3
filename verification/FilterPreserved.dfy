/** The compiled expression evaluates to the filter's own meaning. */
module FilterPreserved {
  import opened Text
  import opened FilterAst
  import opened FilterSql
  import opened FilterMeaning
  import opened FilterCompiled
  import opened FilterCorrect
  import FilterPrinter
  import SqlText
  import SqlShow

  // ---- hypotheses -------------------------------------------------------------------

  /** Text values are their own text form. */
  ghost predicate PlainText(rules: Rules) { forall s: string :: rules.text(Str(s)) == s }

  /** Every relation the compiled text follows leads to another collection. */
  predicate LeavesTable(spec: CollectionSpec, ctx: Context, n: Node)
    decreases n
  {
    match n
    case Or(l, r) => LeavesTable(spec, ctx, l) && LeavesTable(spec, ctx, r)
    case And(l, r) => LeavesTable(spec, ctx, l) && LeavesTable(spec, ctx, r)
    case Compare(op, l, r) =>
      DeniedCompare(spec, ctx, l, r) || (LeavesTable(spec, ctx, l) && LeavesTable(spec, ctx, r))
    case In(t, items) => LeavesTable(spec, ctx, t) && forall x | x in items :: LeavesTable(spec, ctx, x)
    case Between(t, lo, hi) => LeavesTable(spec, ctx, t) && LeavesTable(spec, ctx, lo) && LeavesTable(spec, ctx, hi)
    case IsNull(t) => LeavesTable(spec, ctx, t)
    case IsNotNull(t) => LeavesTable(spec, ctx, t)
    case Ident(name, path) =>
      path != "" && |Split(path, '.')| == 2 && Hop(spec, ctx, Split(path, '.')[0]).Ok? ==>
        Hop(spec, ctx, Split(path, '.')[0]).value.name != spec.name
    case _ => true
  }

  /** `leaves` are bound to the placeholders from `next` on. */
  ghost predicate Binds(args: seq<Value>, start: nat, next: nat, leaves: seq<Value>) {
    && start <= next && next - start + |leaves| <= |args|
    && args[next - start..next - start + |leaves|] == leaves
  }

  lemma {:induction false} BindsSplit(args: seq<Value>, start: nat, next: nat, a: seq<Value>, b: seq<Value>)
    requires Binds(args, start, next, a + b)
    ensures Binds(args, start, next, a) && Binds(args, start, next + |a|, b)
  {
    var k := next - start;
    var all := args[k..k + |a + b|];
    assert args[k..k + |a|] == all[..|a|];
    assert args[k + |a|..k + |a| + |b|] == all[|a|..];
    assert (a + b)[..|a|] == a && (a + b)[|a|..] == b;
  }

  lemma {:induction false} BindsOne(args: seq<Value>, start: nat, next: nat, v: Value)
    requires Binds(args, start, next, [v])
    ensures BoundTo(args, start, next) == v
  {
    assert args[next - start..next - start + 1][0] == args[next - start];
  }

  // ---- the subquery --------------------------------------------------------------------

  /** With two different tables the inner condition looks at the inner row's id
      and the outer row's relation field. */
  lemma {:induction false} HopCondition(rules: Rules, db: Db, row: Row, args: seq<Value>, start: nat,
                     related: string, column: string, current: string, rel: string, other: Row)
    requires related != current
    ensures var e := HopTree(related, column, current, rel);
      var inner := [(related, other)] + [(current, row)];
      && Eval(rules, db, inner, args, start, e.cond) == Compare3(rules, "=", CellOf(other, "id"), CellOf(row, rel))
      && Eval(rules, db, inner, args, start, e.sel) == CellOf(other, column)
  {
    var e := HopTree(related, column, current, rel);
    var inner := [(related, other)] + [(current, row)];
    assert inner[1..] == [(current, row)];
    assert Qualified([(current, row)], current, rel) == CellOf(row, rel);
    assert Qualified(inner, current, rel) == CellOf(row, rel);
    assert Eval(rules, db, inner, args, start, e.cond.l) == Qualified(inner, related, "id");
    assert Eval(rules, db, inner, args, start, e.cond.r) == Qualified(inner, current, rel);
  }

  lemma {:induction false} SelectIsRelated(rules: Rules, db: Db, row: Row, args: seq<Value>, start: nat,
                                           related: string, column: string, current: string, rel: string,
                                           rows: seq<Row>)
    requires related != current
    ensures Select(rules, db, [(current, row)], args, start, HopTree(related, column, current, rel), rows)
         == RelatedCell(rules, rows, CellOf(row, rel), column)
    decreases |rows|
  {
    hide Eval;
    if rows != [] {
      HopCondition(rules, db, row, args, start, related, column, current, rel, rows[0]);
      SelectIsRelated(rules, db, row, args, start, related, column, current, rel, rows[1..]);
      if CellOf(row, rel) == Null {
        NullKeyFinds(rules, rows[1..], column);
      }
    }
  }

  lemma {:induction false} NullKeyFinds(rules: Rules, rows: seq<Row>, column: string)
    ensures RelatedCell(rules, rows, Null, column) == Null
  {
  }

  /** The subquery written for a hop denotes the related record's cell, in every
      database and row, exactly when it leaves the current table. */
  lemma {:induction false} HopMeansRelated(related: string, column: string, current: string, rel: string)
    ensures related != current <==>
      forall rules: Rules, db: Db, row: Row ::
        Select(rules, db, [(current, row)], [], 0, HopTree(related, column, current, rel), RowsOf(db, related))
        == RelatedCell(rules, RowsOf(db, related), CellOf(row, rel), column)
  {
    if related != current {
      forall rules: Rules, db: Db, row: Row
        ensures Select(rules, db, [(current, row)], [], 0, HopTree(related, column, current, rel), RowsOf(db, related))
             == RelatedCell(rules, RowsOf(db, related), CellOf(row, rel), column)
      {
        SelectIsRelated(rules, db, row, [], 0, related, column, current, rel, RowsOf(db, related));
      }
    } else {
      SelfHopStrays(column, current, rel);
    }
  }

  /** A record that refers to nothing still picks up another of its table that refers to itself. */
  lemma {:induction false} SelfHopStrays(column: string, current: string, rel: string)
    ensures exists rules: Rules, db: Db, row: Row ::
      && row in RowsOf(db, current) && CellOf(row, rel) == Null && (rel != "id" ==> CellOf(row, "id") != Null)
      && Select(rules, db, [(current, row)], [], 0, HopTree(current, column, current, rel), RowsOf(db, current))
         != RelatedCell(rules, RowsOf(db, current), CellOf(row, rel), column)
  {
    var rules := Rules((op, a, b) => a == b, v => "");
    var loop: Row := map["id" := Str("x")][rel := Str("x")][column := Str("x")];
    var row: Row := map["id" := Str("y")][column := Str("y")][rel := Null];
    var db: Db := map[current := [loop, row]];
    var e := HopTree(current, column, current, rel);
    var inner := [(current, loop)] + [(current, row)];
    assert RowsOf(db, current) == [loop, row];
    assert CellOf(loop, "id") == Str("x") && CellOf(loop, rel) == Str("x");
    assert Qualified(inner, current, "id") == Str("x") && Qualified(inner, current, rel) == Str("x");
    assert Eval(rules, db, inner, [], 0, e.cond.l) == Str("x");
    assert Eval(rules, db, inner, [], 0, e.cond.r) == Str("x");
    assert Eval(rules, db, inner, [], 0, e.cond) == TRUE;
    assert Select(rules, db, [(current, row)], [], 0, e, [loop, row]) == Str("x");
    NullKeyFinds(rules, [loop, row], column);
    assert row in RowsOf(db, current) && CellOf(row, rel) == Null;
  }

  // ---- IN ----------------------------------------------------------------------------------

  lemma {:induction false} InListIsMember(rules: Rules, v: Value, items: seq<Value>)
    ensures InList(rules, v, items) == Member3(rules, v, items)
  {
    if items != [] {
      var rest := items[1..];
      InListIsMember(rules, v, rest);
      assert forall i :: 0 <= i < |rest| ==> rest[i] == items[i + 1];
      assert forall i :: 1 <= i < |items| ==> items[i] == rest[i - 1];
    }
  }

  // ---- meaning preserved ---------------------------------------------------------------------

  // One-step equations, so that the induction need not unfold the evaluators.

  lemma {:induction false} EvalEquations(rules: Rules, db: Db, scopes: Scopes, args: seq<Value>, start: nat,
          op: string, a: Expr, b: Expr, c: Expr)
    ensures var x, y, z := Eval(rules, db, scopes, args, start, a), Eval(rules, db, scopes, args, start, b),
                           Eval(rules, db, scopes, args, start, c);
      && Eval(rules, db, scopes, args, start, SqlText.Either(a, b)) == Or3(x, y)
      && Eval(rules, db, scopes, args, start, SqlText.Both(a, b)) == And3(x, y)
      && Eval(rules, db, scopes, args, start, SqlText.Cmp(op, a, b)) == Compare3(rules, op, x, y)
      && Eval(rules, db, scopes, args, start, SqlText.Range(a, b, c))
         == And3(Compare3(rules, ">=", x, y), Compare3(rules, "<=", x, z))
      && Eval(rules, db, scopes, args, start, SqlText.NullTest(a, false)) == Bool(x == Null)
      && Eval(rules, db, scopes, args, start, SqlText.NullTest(a, true)) == Bool(x != Null)
  {
    hide And3, Or3, Compare3;
  }

  lemma {:induction false} EvalTextEquations(rules: Rules, db: Db, scopes: Scopes, args: seq<Value>, start: nat,
          a: Expr, b: Expr)
    ensures var x, y := Eval(rules, db, scopes, args, start, a), Eval(rules, db, scopes, args, start, b);
      && Eval(rules, db, scopes, args, start, SqlText.Concat(a, b)) == Concat3(rules, x, y)
      && Eval(rules, db, scopes, args, start, SqlText.Like(false, a, b)) == ILike3(rules, x, y)
      && Eval(rules, db, scopes, args, start, SqlText.Like(true, a, b)) == Not3(ILike3(rules, x, y))
  {
    hide Concat3, ILike3, Not3;
  }

  lemma {:induction false} EvalConstants(rules: Rules, db: Db, scopes: Scopes, args: seq<Value>, start: nat,
          s: string, k: nat)
    ensures Eval(rules, db, scopes, args, start, SqlText.Quoted(s)) == Str(s)
    ensures Eval(rules, db, scopes, args, start, SqlText.False) == FALSE
    ensures Eval(rules, db, scopes, args, start, SqlText.Arg(k)) == BoundTo(args, start, k)
    ensures Eval(rules, db, scopes, args, start, SqlText.Col(s)) == Unqualified(scopes, s)
  {
  }

  lemma {:induction false} PairUnfolds(rules: Rules, db: Db, spec: CollectionSpec, ctx: Context, row: Row, n: Node,
          next: nat)
    requires n.Or? || n.And? || n.Compare?
    ensures var a, b := Tree(spec, ctx, n.l, next), Tree(spec, ctx, n.r, next + |Leaves(spec, ctx, n.l)|);
      && (n.Or? ==> Tree(spec, ctx, n, next) == SqlText.Either(a, b))
      && (n.And? ==> Tree(spec, ctx, n, next) == SqlText.Both(a, b))
      && (n.Compare? ==> Tree(spec, ctx, n, next) == CompareTree(spec, ctx, n.op, n.l, n.r, a, b))
    ensures var x, y := Meaning(rules, db, spec, ctx, row, n.l), Meaning(rules, db, spec, ctx, row, n.r);
      && (n.Or? ==> Meaning(rules, db, spec, ctx, row, n) == Or3(x, y))
      && (n.And? ==> Meaning(rules, db, spec, ctx, row, n) == And3(x, y))
      && (n.Compare? ==>
            Meaning(rules, db, spec, ctx, row, n) == CompareMeaning(rules, spec, ctx, n.op, n.l, n.r, x, y))
    ensures !n.Compare? ==> Leaves(spec, ctx, n) == Leaves(spec, ctx, n.l) + Leaves(spec, ctx, n.r)
  {
    hide CompareTree, CompareMeaning;
  }

  lemma {:induction false} RangeUnfolds(rules: Rules, db: Db, spec: CollectionSpec, ctx: Context, row: Row, n: Node)
    requires n.Between?
    ensures var x := Meaning(rules, db, spec, ctx, row, n.target);
      Meaning(rules, db, spec, ctx, row, n)
      == And3(Compare3(rules, ">=", x, Meaning(rules, db, spec, ctx, row, n.lo)),
              Compare3(rules, "<=", x, Meaning(rules, db, spec, ctx, row, n.hi)))
  {
  }

  lemma {:induction false} TreeMeans(rules: Rules, db: Db, spec: CollectionSpec, ctx: Context, row: Row,
                                     args: seq<Value>, start: nat, n: Node, next: nat)
    requires PlainText(rules) && Compilable(spec, ctx, n) && LeavesTable(spec, ctx, n)
    requires Binds(args, start, next, Leaves(spec, ctx, n))
    ensures Eval(rules, db, [(spec.name, row)], args, start, Tree(spec, ctx, n, next))
         == Meaning(rules, db, spec, ctx, row, n)
    decreases n, 2
  {
    hide Compilable, LeavesTable, Binds, PlainText, Leaves;
    match n {
      case Or(l, r) => PairMeans(rules, db, spec, ctx, row, args, start, n, l, r, next);
      case And(l, r) => PairMeans(rules, db, spec, ctx, row, args, start, n, l, r, next);
      case Compare(op, l, r) => CompareMeans(rules, db, spec, ctx, row, args, start, n, next);
      case In(t, items) => InMeans(rules, db, spec, ctx, row, args, start, n, next);
      case Between(t, lo, hi) => BetweenMeans(rules, db, spec, ctx, row, args, start, n, next);
      case IsNull(t) => NullTestMeans(rules, db, spec, ctx, row, args, start, n, next);
      case IsNotNull(t) => NullTestMeans(rules, db, spec, ctx, row, args, start, n, next);
      case Ident(name, path) => IdentMeans(rules, db, spec, ctx, row, args, start, n, next);
      case _ => LeafMeans(rules, db, spec, ctx, row, args, start, n, next);
    }
  }

  lemma {:induction false} LeafMeans(rules: Rules, db: Db, spec: CollectionSpec, ctx: Context, row: Row,
                  args: seq<Value>, start: nat, n: Node, next: nat)
    requires n.MagicVar? || n.StringLit? || n.IntLit? || n.FloatLit? || n.BoolLit? || n.NullLit?
    requires Compilable(spec, ctx, n) && Binds(args, start, next, Leaves(spec, ctx, n))
    ensures Eval(rules, db, [(spec.name, row)], args, start, Tree(spec, ctx, n, next))
         == Meaning(rules, db, spec, ctx, row, n)
  {
    hide Binds;
    BindsOne(args, start, next, Leaves(spec, ctx, n)[0]);
  }

  lemma {:induction false} IdentMeans(rules: Rules, db: Db, spec: CollectionSpec, ctx: Context, row: Row,
                   args: seq<Value>, start: nat, n: Node, next: nat)
    requires n.Ident? && Compilable(spec, ctx, n) && LeavesTable(spec, ctx, n)
    ensures Eval(rules, db, [(spec.name, row)], args, start, Tree(spec, ctx, n, next))
         == Meaning(rules, db, spec, ctx, row, n)
  {
    hide ColumnAllowed, Hop, Split, Select, RelatedCell;
    var name, dotted := n.name, n.dottedPath;
    assert Meaning(rules, db, spec, ctx, row, n) == IdentMeaning(rules, db, spec, ctx, row, name, dotted);
    if dotted == "" {
      EvalConstants(rules, db, [(spec.name, row)], args, start, name, 0);
      assert Unqualified([(spec.name, row)][1..], name) == Null;
    } else {
      var path := Split(dotted, '.');
      var related := Hop(spec, ctx, path[0]).value;
      SelectIsRelated(rules, db, row, args, start, related.name, path[1], spec.name, path[0], RowsOf(db, related.name));
    }
  }

  lemma {:induction false} NullTestMeans(rules: Rules, db: Db, spec: CollectionSpec, ctx: Context, row: Row,
                                         args: seq<Value>, start: nat, n: Node, next: nat)
    requires n.IsNull? || n.IsNotNull?
    requires PlainText(rules) && Compilable(spec, ctx, n) && LeavesTable(spec, ctx, n)
    requires Binds(args, start, next, Leaves(spec, ctx, n))
    ensures Eval(rules, db, [(spec.name, row)], args, start, Tree(spec, ctx, n, next))
         == Meaning(rules, db, spec, ctx, row, n)
    decreases n, 0
  {
    hide Binds, PlainText;
    TreeMeans(rules, db, spec, ctx, row, args, start, n.target, next);
  }

  lemma {:induction false} PairMeans(rules: Rules, db: Db, spec: CollectionSpec, ctx: Context, row: Row,
                                     args: seq<Value>, start: nat, n: Node, l: Node, r: Node, next: nat)
    requires n == Or(l, r) || n == And(l, r)
    requires PlainText(rules) && Compilable(spec, ctx, n) && LeavesTable(spec, ctx, n)
    requires Binds(args, start, next, Leaves(spec, ctx, n))
    ensures Eval(rules, db, [(spec.name, row)], args, start, Tree(spec, ctx, n, next))
         == Meaning(rules, db, spec, ctx, row, n)
    decreases n, 0
  {
    hide Binds, PlainText, Eval, Meaning, Tree, Leaves;
    PairUnfolds(rules, db, spec, ctx, row, n, next);
    BindsSplit(args, start, next, Leaves(spec, ctx, l), Leaves(spec, ctx, r));
    TreeMeans(rules, db, spec, ctx, row, args, start, l, next);
    TreeMeans(rules, db, spec, ctx, row, args, start, r, next + |Leaves(spec, ctx, l)|);
    EvalEquations(rules, db, [(spec.name, row)], args, start, "=", Tree(spec, ctx, l, next),
                  Tree(spec, ctx, r, next + |Leaves(spec, ctx, l)|), SqlText.False);
  }

  lemma {:induction false} BetweenMeans(rules: Rules, db: Db, spec: CollectionSpec, ctx: Context, row: Row,
                                        args: seq<Value>, start: nat, n: Node, next: nat)
    requires n.Between?
    requires PlainText(rules) && Compilable(spec, ctx, n) && LeavesTable(spec, ctx, n)
    requires Binds(args, start, next, Leaves(spec, ctx, n))
    ensures Eval(rules, db, [(spec.name, row)], args, start, Tree(spec, ctx, n, next))
         == Meaning(rules, db, spec, ctx, row, n)
    decreases n, 0
  {
    hide Binds, PlainText, Eval, Meaning, Tree, Leaves;
    var a, b, c := Leaves(spec, ctx, n.target), Leaves(spec, ctx, n.lo), Leaves(spec, ctx, n.hi);
    BetweenUnfolds(spec, ctx, n, next);
    RangeUnfolds(rules, db, spec, ctx, row, n);
    BindsSplit(args, start, next, a + b, c);
    BindsSplit(args, start, next, a, b);
    TreeMeans(rules, db, spec, ctx, row, args, start, n.target, next);
    TreeMeans(rules, db, spec, ctx, row, args, start, n.lo, next + |a|);
    TreeMeans(rules, db, spec, ctx, row, args, start, n.hi, next + |a| + |b|);
    EvalEquations(rules, db, [(spec.name, row)], args, start, "=", Tree(spec, ctx, n.target, next),
                  Tree(spec, ctx, n.lo, next + |a|), Tree(spec, ctx, n.hi, next + |a| + |b|));
  }

  lemma {:induction false} CompareMeans(rules: Rules, db: Db, spec: CollectionSpec, ctx: Context, row: Row,
                                        args: seq<Value>, start: nat, n: Node, next: nat)
    requires n.Compare?
    requires PlainText(rules) && Compilable(spec, ctx, n) && LeavesTable(spec, ctx, n)
    requires Binds(args, start, next, Leaves(spec, ctx, n))
    ensures Eval(rules, db, [(spec.name, row)], args, start, Tree(spec, ctx, n, next))
         == Meaning(rules, db, spec, ctx, row, n)
    decreases n, 1
  {
    hide Binds, CompareIsAnonUuid, Eval, Meaning, Tree, PlainText;
    var l, r, op := n.l, n.r, n.op;
    var k := next + |Leaves(spec, ctx, l)|;
    var a, b := Tree(spec, ctx, l, next), Tree(spec, ctx, r, k);
    var scopes := [(spec.name, row)];
    PairUnfolds(rules, db, spec, ctx, row, n, next);
    NullNotDenied(spec, ctx, l, r);
    EvalConstants(rules, db, scopes, args, start, "", 0);
    if (l.NullLit? || r.NullLit?) && (op == "=" || op == "!=") {
      NullCompareMeans(rules, db, spec, ctx, row, args, start, n, next);
    } else if !DeniedCompare(spec, ctx, l, r) {
      BindsSplit(args, start, next, Leaves(spec, ctx, l), Leaves(spec, ctx, r));
      TreeMeans(rules, db, spec, ctx, row, args, start, l, next);
      TreeMeans(rules, db, spec, ctx, row, args, start, r, k);
      OperatorMeans(rules, db, scopes, args, start, op, a, b);
    }
  }

  lemma {:induction false} NullCompareMeans(rules: Rules, db: Db, spec: CollectionSpec, ctx: Context, row: Row,
                                            args: seq<Value>, start: nat, n: Node, next: nat)
    requires n.Compare? && (n.l.NullLit? || n.r.NullLit?) && (n.op == "=" || n.op == "!=")
    requires PlainText(rules) && Compilable(spec, ctx, n) && LeavesTable(spec, ctx, n)
    requires Binds(args, start, next, Leaves(spec, ctx, n))
    ensures Eval(rules, db, [(spec.name, row)], args, start, Tree(spec, ctx, n, next))
         == Meaning(rules, db, spec, ctx, row, n)
    decreases n, 0
  {
    hide Binds, CompareIsAnonUuid, Eval, Meaning, Tree, PlainText;
    var l, r, op := n.l, n.r, n.op;
    var a, b := Tree(spec, ctx, l, next), Tree(spec, ctx, r, next + |Leaves(spec, ctx, l)|);
    PairUnfolds(rules, db, spec, ctx, row, n, next);
    NullNotDenied(spec, ctx, l, r);
    if l.NullLit? {
      assert Leaves(spec, ctx, l) == [];
      TreeMeans(rules, db, spec, ctx, row, args, start, r, next);
    } else {
      TreeMeans(rules, db, spec, ctx, row, args, start, l, next);
    }
    EvalEquations(rules, db, [(spec.name, row)], args, start, op, if l.NullLit? then b else a, a, a);
  }

  lemma {:induction false} NullNotDenied(spec: CollectionSpec, ctx: Context, l: Node, r: Node)
    ensures l.NullLit? || r.NullLit? ==> !DeniedCompare(spec, ctx, l, r)
  {
  }

  /** `%` around the right operand, by concatenation in SQL. */
  lemma {:induction false} OperatorMeans(rules: Rules, db: Db, scopes: Scopes, args: seq<Value>, start: nat,
          op: string, a: Expr, b: Expr)
    requires PlainText(rules)
    ensures var x, y := Eval(rules, db, scopes, args, start, a), Eval(rules, db, scopes, args, start, b);
      && Eval(rules, db, scopes, args, start, SqlText.Like(false, a, SqlShow.Pattern(b))) == Like3(rules, x, y)
      && Eval(rules, db, scopes, args, start, SqlText.Like(true, a, SqlShow.Pattern(b))) == Not3(Like3(rules, x, y))
      && Eval(rules, db, scopes, args, start, SqlText.Cmp(op, a, b)) == Compare3(rules, op, x, y)
  {
    hide ILikeMatch, Eval;
    var x, y := Eval(rules, db, scopes, args, start, a), Eval(rules, db, scopes, args, start, b);
    var q := SqlText.Quoted("%");
    EvalConstants(rules, db, scopes, args, start, "%", 0);
    EvalTextEquations(rules, db, scopes, args, start, q, b);
    EvalTextEquations(rules, db, scopes, args, start, SqlText.Concat(q, b), q);
    EvalTextEquations(rules, db, scopes, args, start, a, SqlShow.Pattern(b));
    EvalEquations(rules, db, scopes, args, start, op, a, b, q);
    if y != Null {
      assert rules.text(Str("%")) == "%";
      assert rules.text(Str("%" + rules.text(y))) == "%" + rules.text(y);
      assert rules.text(Str("%" + rules.text(y) + "%")) == "%" + rules.text(y) + "%";
    }
  }

  lemma {:induction false} InMeans(rules: Rules, db: Db, spec: CollectionSpec, ctx: Context, row: Row,
                                   args: seq<Value>, start: nat, n: Node, next: nat)
    requires n.In?
    requires PlainText(rules) && Compilable(spec, ctx, n) && LeavesTable(spec, ctx, n)
    requires Binds(args, start, next, Leaves(spec, ctx, n))
    ensures Eval(rules, db, [(spec.name, row)], args, start, Tree(spec, ctx, n, next))
         == Meaning(rules, db, spec, ctx, row, n)
    decreases n, 0
  {
    hide Binds, PlainText, Eval, Meaning, Tree, Leaves, LeavesOf, Trees, LeavesTable, Compilable;
    var t, items := n.target, n.items;
    var k := next + |Leaves(spec, ctx, t)|;
    InParts(spec, ctx, n, next);
    BindsSplit(args, start, next, Leaves(spec, ctx, t), LeavesOf(spec, ctx, items));
    TreeMeans(rules, db, spec, ctx, row, args, start, t, next);
    var es := Trees(spec, ctx, items, k);
    var scopes := [(spec.name, row)];
    ItemsMean(rules, db, spec, ctx, row, args, start, items, k);
    var values := Meanings(rules, db, spec, ctx, row, items);
    assert Evals(rules, db, scopes, args, start, es) == values;
    InListIsMember(rules, Meaning(rules, db, spec, ctx, row, t), values);
    MeaningOfIn(rules, db, spec, ctx, row, n);
    EvalOfOneOf(rules, db, scopes, args, start, Tree(spec, ctx, t, next), es);
  }

  ghost function Meanings(rules: Rules, db: Db, spec: CollectionSpec, ctx: Context, row: Row, items: seq<Node>)
    : seq<Value>
  {
    seq(|items|, i requires 0 <= i < |items| => Meaning(rules, db, spec, ctx, row, items[i]))
  }

  ghost function Evals(rules: Rules, db: Db, scopes: Scopes, args: seq<Value>, start: nat, es: seq<Expr>): seq<Value> {
    seq(|es|, i requires 0 <= i < |es| => Eval(rules, db, scopes, args, start, es[i]))
  }

  lemma InParts(spec: CollectionSpec, ctx: Context, n: Node, next: nat)
    requires n.In? && Compilable(spec, ctx, n) && LeavesTable(spec, ctx, n)
    ensures Compilable(spec, ctx, n.target) && LeavesTable(spec, ctx, n.target)
    ensures forall x | x in n.items :: Compilable(spec, ctx, x) && LeavesTable(spec, ctx, x)
    ensures Leaves(spec, ctx, n) == Leaves(spec, ctx, n.target) + LeavesOf(spec, ctx, n.items)
    ensures Tree(spec, ctx, n, next) ==
            SqlText.OneOf(
              Tree(spec, ctx, n.target, next), Trees(spec, ctx, n.items, next + |Leaves(spec, ctx, n.target)|))
  {
    hide Trees, LeavesOf;
  }

  lemma {:induction false} MeaningOfIn(rules: Rules, db: Db, spec: CollectionSpec, ctx: Context, row: Row, n: Node)
    requires n.In?
    ensures Meaning(rules, db, spec, ctx, row, n) ==
            Member3(rules, Meaning(rules, db, spec, ctx, row, n.target), Meanings(rules, db, spec, ctx, row, n.items))
  {
    hide Member3;
    assert Meanings(rules, db, spec, ctx, row, n.items)
        == seq(|n.items|, i requires 0 <= i < |n.items| => Meaning(rules, db, spec, ctx, row, n.items[i]));
  }

  lemma {:induction false} EvalOfOneOf(rules: Rules, db: Db, scopes: Scopes, args: seq<Value>, start: nat, x: Expr,
          items: seq<Expr>)
    ensures Eval(rules, db, scopes, args, start, SqlText.OneOf(x, items)) ==
            InList(rules, Eval(rules, db, scopes, args, start, x), Evals(rules, db, scopes, args, start, items))
  {
    hide InList;
    assert Evals(rules, db, scopes, args, start, items)
        == seq(|items|, i requires 0 <= i < |items| => Eval(rules, db, scopes, args, start, items[i]));
  }

  lemma {:induction false} ItemsMean(rules: Rules, db: Db, spec: CollectionSpec, ctx: Context, row: Row,
                                     args: seq<Value>, start: nat, items: seq<Node>, next: nat)
    requires PlainText(rules) && forall x | x in items :: Compilable(spec, ctx, x) && LeavesTable(spec, ctx, x)
    requires Binds(args, start, next, LeavesOf(spec, ctx, items))
    ensures forall i | 0 <= i < |items| ::
      Eval(rules, db, [(spec.name, row)], args, start, Trees(spec, ctx, items, next)[i])
      == Meaning(rules, db, spec, ctx, row, items[i])
    decreases items, 0
  {
    hide Binds, PlainText, Compilable, LeavesTable, Eval, Meaning, Tree;
    if items != [] {
      var a := Leaves(spec, ctx, items[0]);
      BindsSplit(args, start, next, a, LeavesOf(spec, ctx, items[1..]));
      TreeMeans(rules, db, spec, ctx, row, args, start, items[0], next);
      ItemsMean(rules, db, spec, ctx, row, args, start, items[1..], next + |a|);
      var es := Trees(spec, ctx, items, next);
      assert es[1..] == Trees(spec, ctx, items[1..], next + |a|);
      forall i | 0 <= i < |items|
        ensures Eval(rules, db, [(spec.name, row)], args, start, es[i]) == Meaning(rules, db, spec, ctx, row, items[i])
      {
        if i > 0 {
          assert es[i] == es[1..][i - 1] && items[i] == items[1..][i - 1];
        }
      }
    }
  }

  /** Compilation preserves meaning: the emitted text, read with SQL's own lexer
      and precedences and evaluated with its arguments, has the filter's value
      on every row of every database. */
  lemma {:induction false} CompilePreservesMeaning(rules: Rules, db: Db, spec: CollectionSpec, ctx: Context,
          row: Row, n: Node, start: nat)
    requires PlainText(rules) && ValidNames(spec, ctx) && WellFormed(n) && LeavesTable(spec, ctx, n)
    requires Emit(spec, ctx, n, start).Ok?
    ensures var p := Emit(spec, ctx, n, start).value;
      var e := SqlText.SqlRead(p.text);
      e.Some? && Eval(rules, db, [(spec.name, row)], p.args, start, e.value) == Meaning(rules, db, spec, ctx, row, n)
  {
    hide WellFormed, ValidNames, Emit, Tree, Leaves, SqlText.SqlRead, Eval, Meaning, PlainText, LeavesTable, Compilable;
    CompilesExactly(spec, ctx, n, start);
    CompiledTextReads(spec, ctx, n, start);
    var args := Leaves(spec, ctx, n);
    assert args[0..|args|] == args;
    TreeMeans(rules, db, spec, ctx, row, args, start, n, start);
  }
}
