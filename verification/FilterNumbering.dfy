/** What the compiled text may contain: placeholders in order, allowed columns,
    and no trace of a literal. */
module FilterNumbering {
  import opened Text
  import opened FilterAst
  import opened FilterSql
  import opened FilterMeaning
  import opened FilterCompiled
  import opened FilterCorrect
  import SqlText
  import SqlShow

  // ---- placeholders ---------------------------------------------------------------

  /** The placeholders of an expression, left to right. */
  function Placeholders(e: Expr): seq<nat> {
    match e
    case Arg(k) => [k]
    case Not(x) => Placeholders(x)
    case Either(l, r) => Placeholders(l) + Placeholders(r)
    case Both(l, r) => Placeholders(l) + Placeholders(r)
    case Cmp(_, l, r) => Placeholders(l) + Placeholders(r)
    case Like(_, x, p) => Placeholders(x) + Placeholders(p)
    case Concat(l, r) => Placeholders(l) + Placeholders(r)
    case OneOf(x, items) => Placeholders(x) + AllPlaceholders(items)
    case Range(x, lo, hi) => Placeholders(x) + Placeholders(lo) + Placeholders(hi)
    case NullTest(x, _) => Placeholders(x)
    case Subquery(sel, _, cond) => Placeholders(sel) + Placeholders(cond)
    case _ => []
  }

  function AllPlaceholders(es: seq<Expr>): seq<nat> {
    if es == [] then [] else Placeholders(es[0]) + AllPlaceholders(es[1..])
  }

  function Interval(from: nat, count: nat): (s: seq<nat>)
    ensures |s| == count && forall i | 0 <= i < count :: s[i] == from + i
    decreases count
  {
    if count == 0 then [] else [from] + Interval(from + 1, count - 1)
  }

  lemma {:induction false} IntervalCat(from: nat, a: nat, b: nat)
    ensures Interval(from, a) + Interval(from + a, b) == Interval(from, a + b)
  {
  }

  lemma {:induction false} IntervalSmall(from: nat)
    ensures Interval(from, 1) == [from] && Interval(from, 0) == []
  {
  }

  lemma {:induction false} TreePlaceholders(spec: CollectionSpec, ctx: Context, n: Node, next: nat)
    ensures Placeholders(Tree(spec, ctx, n, next)) == Interval(next, |Leaves(spec, ctx, n)|)
    decreases Size(n), 1
  {
    hide Tree, Leaves, Trees, LeavesOf, CompareTree, CompareLeaves, Interval;
    TreeParts(spec, ctx, n, next);
    match n {
      case Or(l, r) => PairPlaceholders(spec, ctx, l, r, next);
      case And(l, r) => PairPlaceholders(spec, ctx, l, r, next);
      case Compare(op, l, r) => ComparePlaceholders(spec, ctx, op, l, r, next);
      case In(t, items) => InPlaceholders(spec, ctx, n, next);
      case Between(t, lo, hi) => BetweenPlaceholders(spec, ctx, n, next);
      case IsNull(t) => TreePlaceholders(spec, ctx, t, next);
      case IsNotNull(t) => TreePlaceholders(spec, ctx, t, next);
      case _ => LeafPlaceholders(spec, ctx, n, next);
    }
  }

  lemma {:induction false} InPlaceholders(spec: CollectionSpec, ctx: Context, n: Node, next: nat)
    requires n.In?
    ensures Placeholders(Tree(spec, ctx, n, next)) == Interval(next, |Leaves(spec, ctx, n)|)
    decreases Size(n), 0
  {
    hide Tree, Leaves, Trees, LeavesOf, Interval, AllPlaceholders;
    TreeParts(spec, ctx, n, next);
    var a := |Leaves(spec, ctx, n.target)|;
    TreePlaceholders(spec, ctx, n.target, next);
    ItemsPlaceholders(spec, ctx, n.items, next + a);
    IntervalCat(next, a, |LeavesOf(spec, ctx, n.items)|);
  }

  lemma {:induction false} BetweenPlaceholders(spec: CollectionSpec, ctx: Context, n: Node, next: nat)
    requires n.Between?
    ensures Placeholders(Tree(spec, ctx, n, next)) == Interval(next, |Leaves(spec, ctx, n)|)
    decreases Size(n), 0
  {
    hide Tree, Leaves, Interval;
    TreeParts(spec, ctx, n, next);
    var a, b := |Leaves(spec, ctx, n.target)|, |Leaves(spec, ctx, n.lo)|;
    TreePlaceholders(spec, ctx, n.target, next);
    TreePlaceholders(spec, ctx, n.lo, next + a);
    TreePlaceholders(spec, ctx, n.hi, next + a + b);
    IntervalCat(next, a, b);
    IntervalCat(next, a + b, |Leaves(spec, ctx, n.hi)|);
  }

  lemma {:induction false} LeafPlaceholders(spec: CollectionSpec, ctx: Context, n: Node, next: nat)
    requires !n.Or? && !n.And? && !n.Compare? && !n.In? && !n.Between? && !n.IsNull? && !n.IsNotNull?
    ensures Placeholders(Tree(spec, ctx, n, next)) == Interval(next, |Leaves(spec, ctx, n)|)
  {
    hide Interval, Hop, Split;
    IntervalSmall(next);
    if n.Ident? && Tree(spec, ctx, n, next).Subquery? {
      var e := Tree(spec, ctx, n, next);
      assert Placeholders(e.cond) == [] + [];
    }
  }

  lemma {:induction false} PairPlaceholders(spec: CollectionSpec, ctx: Context, l: Node, r: Node, next: nat)
    ensures var a := |Leaves(spec, ctx, l)|;
      Placeholders(Tree(spec, ctx, l, next)) + Placeholders(Tree(spec, ctx, r, next + a))
      == Interval(next, a + |Leaves(spec, ctx, r)|)
    decreases Size(l) + Size(r), 2
  {
    hide Tree, Leaves, Placeholders, Interval;
    TreePlaceholders(spec, ctx, l, next);
    TreePlaceholders(spec, ctx, r, next + |Leaves(spec, ctx, l)|);
    IntervalCat(next, |Leaves(spec, ctx, l)|, |Leaves(spec, ctx, r)|);
  }

  lemma {:induction false} ComparePlaceholders(spec: CollectionSpec, ctx: Context, op: string, l: Node, r: Node,
          next: nat)
    ensures Placeholders(Tree(spec, ctx, Compare(op, l, r), next))
         == Interval(next, |Leaves(spec, ctx, Compare(op, l, r))|)
    decreases Size(Compare(op, l, r)), 0
  {
    hide DeniedCompare, Interval, Tree, Leaves, Placeholders;
    TreeParts(spec, ctx, Compare(op, l, r), next);
    IntervalSmall(next);
    var a := |Leaves(spec, ctx, l)|;
    var x, y := Tree(spec, ctx, l, next), Tree(spec, ctx, r, next + a);
    TreePlaceholders(spec, ctx, l, next);
    TreePlaceholders(spec, ctx, r, next + a);
    IntervalCat(next, a, |Leaves(spec, ctx, r)|);
    ComparePlaces(op, x, y);
    NullLeaves(spec, ctx);
  }

  lemma {:induction false} NullLeaves(spec: CollectionSpec, ctx: Context)
    ensures Leaves(spec, ctx, NullLit) == []
  {
  }

  lemma {:induction false} ComparePlaces(op: string, x: Expr, y: Expr)
    ensures Placeholders(SqlText.False) == []
    ensures Placeholders(SqlText.NullTest(x, op == "!=")) == Placeholders(x)
    ensures Placeholders(SqlText.NullTest(y, op == "!=")) == Placeholders(y)
    ensures Placeholders(SqlText.Cmp(op, x, y)) == Placeholders(x) + Placeholders(y)
    ensures Placeholders(SqlText.Like(op == "!~", x, SqlShow.Pattern(y))) == Placeholders(x) + Placeholders(y)
  {
    PatternPlaceholders(y);
  }

  lemma {:induction false} PatternPlaceholders(x: Expr)
    ensures Placeholders(SqlShow.Pattern(x)) == Placeholders(x)
  {
    assert Placeholders(SqlText.Concat(SqlText.Quoted("%"), x)) == [] + Placeholders(x);
  }

  lemma {:induction false} ItemsPlaceholders(spec: CollectionSpec, ctx: Context, items: seq<Node>, next: nat)
    ensures AllPlaceholders(Trees(spec, ctx, items, next)) == Interval(next, |LeavesOf(spec, ctx, items)|)
    decreases SizeAll(items), 2 + |items|
  {
    hide Tree, Leaves, Placeholders, Interval;
    IntervalSmall(next);
    if items != [] {
      var a := |Leaves(spec, ctx, items[0])|;
      TreePlaceholders(spec, ctx, items[0], next);
      ItemsPlaceholders(spec, ctx, items[1..], next + a);
      IntervalCat(next, a, |LeavesOf(spec, ctx, items[1..])|);
      var es := Trees(spec, ctx, items, next);
      assert es[0] == Tree(spec, ctx, items[0], next) && es[1..] == Trees(spec, ctx, items[1..], next + a);
    }
  }

  /** The text uses `$start` up to the last argument, each once and in order, and
      the arguments are the bound leaves in that order. */
  lemma {:induction false} PlaceholdersInOrder(spec: CollectionSpec, ctx: Context, n: Node, start: nat)
    requires WellFormed(n) && ValidNames(spec, ctx) && Emit(spec, ctx, n, start).Ok?
    ensures var p := Emit(spec, ctx, n, start).value;
      var e := SqlText.SqlRead(p.text);
      && e.Some? && Placeholders(e.value) == Interval(start, |p.args|)
      && p.args == Leaves(spec, ctx, n)
  {
    hide WellFormed, ValidNames, Emit, Tree, Leaves, Placeholders, SqlText.SqlRead, Interval;
    CompiledTextReads(spec, ctx, n, start);
    TreePlaceholders(spec, ctx, n, start);
  }

  // ---- columns ---------------------------------------------------------------------------

  /** Plain columns are allowed here; a subquery reads one allowed column of a
      collection that a relation field of this one leads to. */
  predicate ColumnsAllowed(spec: CollectionSpec, ctx: Context, e: Expr)
    decreases e
  {
    match e
    case Col(c) => ColumnAllowed(spec, c)
    case QCol(_, _) => false
    case Not(x) => ColumnsAllowed(spec, ctx, x)
    case Either(l, r) => ColumnsAllowed(spec, ctx, l) && ColumnsAllowed(spec, ctx, r)
    case Both(l, r) => ColumnsAllowed(spec, ctx, l) && ColumnsAllowed(spec, ctx, r)
    case Cmp(_, l, r) => ColumnsAllowed(spec, ctx, l) && ColumnsAllowed(spec, ctx, r)
    case Like(_, x, p) => ColumnsAllowed(spec, ctx, x) && ColumnsAllowed(spec, ctx, p)
    case Concat(l, r) => ColumnsAllowed(spec, ctx, l) && ColumnsAllowed(spec, ctx, r)
    case OneOf(x, items) => ColumnsAllowed(spec, ctx, x) && forall y | y in items :: ColumnsAllowed(spec, ctx, y)
    case Range(x, lo, hi) => ColumnsAllowed(spec, ctx, x) && ColumnsAllowed(spec, ctx, lo)
        && ColumnsAllowed(spec, ctx, hi)
    case NullTest(x, _) => ColumnsAllowed(spec, ctx, x)
    case Subquery(sel, from, cond) =>
      && sel.QCol? && cond.Cmp? && cond.l == SqlText.QCol(from, "id") && cond.r.QCol? && cond.r.table == spec.name
      && var related := Hop(spec, ctx, cond.r.name);
         related.Ok? && related.value.name == from && sel.table == from && ColumnAllowed(related.value, sel.name)
    case _ => true
  }

  lemma {:induction false} TreeColumns(spec: CollectionSpec, ctx: Context, n: Node, next: nat)
    requires Compilable(spec, ctx, n)
    ensures ColumnsAllowed(spec, ctx, Tree(spec, ctx, n, next))
    decreases n, 1
  {
    hide Tree, Leaves, Trees, LeavesOf, CompareTree, CompareLeaves, DeniedCompare;
    TreeParts(spec, ctx, n, next);
    match n {
      case Or(l, r) => TreeColumns(spec, ctx, l, next); TreeColumns(spec, ctx, r, next + |Leaves(spec, ctx, l)|);
      case And(l, r) => TreeColumns(spec, ctx, l, next); TreeColumns(spec, ctx, r, next + |Leaves(spec, ctx, l)|);
      case Compare(op, l, r) => CompareColumns(spec, ctx, op, l, r, next);
      case In(t, items) =>
        TreeColumns(spec, ctx, t, next);
        ItemColumns(spec, ctx, items, next + |Leaves(spec, ctx, t)|);
      case Between(t, lo, hi) =>
        var a := next + |Leaves(spec, ctx, t)|;
        TreeColumns(spec, ctx, t, next);
        TreeColumns(spec, ctx, lo, a);
        TreeColumns(spec, ctx, hi, a + |Leaves(spec, ctx, lo)|);
      case IsNull(t) => TreeColumns(spec, ctx, t, next);
      case IsNotNull(t) => TreeColumns(spec, ctx, t, next);
      case _ => LeafColumns(spec, ctx, n, next);
    }
  }

  lemma {:induction false} LeafColumns(spec: CollectionSpec, ctx: Context, n: Node, next: nat)
    requires !n.Or? && !n.And? && !n.Compare? && !n.In? && !n.Between? && !n.IsNull? && !n.IsNotNull?
    requires Compilable(spec, ctx, n)
    ensures ColumnsAllowed(spec, ctx, Tree(spec, ctx, n, next))
  {
    hide ColumnAllowed, FindRelation;
  }

  lemma {:induction false} CompareColumnsOf(spec: CollectionSpec, ctx: Context, op: string, x: Expr, y: Expr)
    ensures ColumnsAllowed(spec, ctx, SqlText.False)
    ensures ColumnsAllowed(spec, ctx, SqlText.NullTest(x, op == "!=")) == ColumnsAllowed(spec, ctx, x)
    ensures ColumnsAllowed(spec, ctx, SqlText.NullTest(y, op == "!=")) == ColumnsAllowed(spec, ctx, y)
    ensures ColumnsAllowed(spec, ctx, x) && ColumnsAllowed(spec, ctx, y) ==>
      && ColumnsAllowed(spec, ctx, SqlText.Cmp(op, x, y))
      && ColumnsAllowed(spec, ctx, SqlText.Like(op == "!~", x, SqlShow.Pattern(y)))
  {
    PatternColumns(spec, ctx, y);
  }

  lemma {:induction false} CompareColumns(spec: CollectionSpec, ctx: Context, op: string, l: Node, r: Node, next: nat)
    requires Compilable(spec, ctx, Compare(op, l, r))
    ensures ColumnsAllowed(spec, ctx, Tree(spec, ctx, Compare(op, l, r), next))
    decreases Compare(op, l, r), 0
  {
    hide DeniedCompare, Tree, Leaves, ColumnsAllowed;
    TreeParts(spec, ctx, Compare(op, l, r), next);
    var k := next + |Leaves(spec, ctx, l)|;
    CompareColumnsOf(spec, ctx, op, Tree(spec, ctx, l, next), Tree(spec, ctx, r, k));
    if IsNullTest(op, l, r) {
      if l.NullLit? {
        TreeColumns(spec, ctx, r, k);
      } else {
        TreeColumns(spec, ctx, l, next);
      }
    } else if !DeniedCompare(spec, ctx, l, r) {
      TreeColumns(spec, ctx, l, next);
      TreeColumns(spec, ctx, r, k);
    }
  }

  lemma {:induction false} PatternColumns(spec: CollectionSpec, ctx: Context, x: Expr)
    ensures ColumnsAllowed(spec, ctx, SqlShow.Pattern(x)) == ColumnsAllowed(spec, ctx, x)
  {
    assert ColumnsAllowed(spec, ctx, SqlText.Concat(SqlText.Quoted("%"), x)) == ColumnsAllowed(spec, ctx, x);
  }

  lemma {:induction false} ItemColumns(spec: CollectionSpec, ctx: Context, items: seq<Node>, next: nat)
    requires forall x | x in items :: Compilable(spec, ctx, x)
    ensures forall y | y in Trees(spec, ctx, items, next) :: ColumnsAllowed(spec, ctx, y)
    decreases items
  {
    hide Compilable, ColumnsAllowed, Tree;
    if items != [] {
      TreeColumns(spec, ctx, items[0], next);
      ItemColumns(spec, ctx, items[1..], next + |Leaves(spec, ctx, items[0])|);
    }
  }

  lemma {:induction false} EveryColumnAllowed(spec: CollectionSpec, ctx: Context, n: Node, start: nat)
    requires WellFormed(n) && ValidNames(spec, ctx) && Emit(spec, ctx, n, start).Ok?
    ensures var e := SqlText.SqlRead(Emit(spec, ctx, n, start).value.text);
      e.Some? && ColumnsAllowed(spec, ctx, e.value)
  {
    hide WellFormed, ValidNames, Emit, Tree, Leaves, ColumnsAllowed, SqlText.SqlRead, Compilable;
    CompiledTextReads(spec, ctx, n, start);
    CompilesExactly(spec, ctx, n, start);
    TreeColumns(spec, ctx, n, start);
  }

  // ---- literals ----------------------------------------------------------------------------

  predicate IsLiteral(n: Node) { n.StringLit? || n.IntLit? || n.FloatLit? || n.BoolLit? }

  /** The two filters differ in literals only, kinds of literals included. */
  predicate SameShape(a: Node, b: Node)
    decreases a
  {
    match a
    case Or(l, r) => b.Or? && SameShape(l, b.l) && SameShape(r, b.r)
    case And(l, r) => b.And? && SameShape(l, b.l) && SameShape(r, b.r)
    case Compare(op, l, r) => b.Compare? && b.op == op && SameShape(l, b.l) && SameShape(r, b.r)
    case In(t, items) =>
      && b.In? && SameShape(t, b.target) && |b.items| == |items|
      && forall i | 0 <= i < |items| :: SameShape(items[i], b.items[i])
    case Between(t, lo, hi) => b.Between? && SameShape(t, b.target) && SameShape(lo, b.lo) && SameShape(hi, b.hi)
    case IsNull(t) => b.IsNull? && SameShape(t, b.target)
    case IsNotNull(t) => b.IsNotNull? && SameShape(t, b.target)
    case _ => if IsLiteral(a) then IsLiteral(b) else a == b
  }

  /** Neither side of an identity test changes with literals. */
  lemma {:induction false} ShapeKeeps(a: Node, b: Node)
    requires SameShape(a, b)
    ensures a.MagicVar? || a.Ident? || b.MagicVar? || b.Ident? || a.NullLit? || b.NullLit? ==> a == b
  {
  }

  lemma {:induction false} ShapeAnon(spec: CollectionSpec, ctx: Context, m: Node, c: Node, m': Node, c': Node)
    requires SameShape(m, m') && SameShape(c, c')
    ensures CompareIsAnonUuid(spec, ctx, m, c) == CompareIsAnonUuid(spec, ctx, m', c')
  {
    hide HasUuidColumn, Hop, Split, SameShape;
    ShapeKeeps(m, m');
    ShapeKeeps(c, c');
  }

  lemma {:induction false} ShapeNull(a: Node, b: Node)
    requires SameShape(a, b)
    ensures a.NullLit? == b.NullLit?
  {
    hide SameShape;
    ShapeKeeps(a, b);
  }

  lemma {:induction false} ShapeDenies(spec: CollectionSpec, ctx: Context, l: Node, r: Node, l': Node, r': Node)
    requires SameShape(l, l') && SameShape(r, r')
    ensures DeniedCompare(spec, ctx, l, r) == DeniedCompare(spec, ctx, l', r')
    ensures l.NullLit? == l'.NullLit? && r.NullLit? == r'.NullLit?
  {
    hide CompareIsAnonUuid, SameShape;
    ShapeNull(l, l');
    ShapeNull(r, r');
    ShapeAnon(spec, ctx, l, r, l', r');
    ShapeAnon(spec, ctx, r, l, r', l');
  }

  /** What `SameShape` says about the parts. */
  lemma {:induction false} ShapeParts(a: Node, b: Node)
    requires SameShape(a, b)
    ensures a.Or? || a.And? || a.Compare? ==>
      a.Or? == b.Or? && a.And? == b.And? && a.Compare? == b.Compare? && SameShape(a.l, b.l) && SameShape(a.r, b.r)
    ensures a.Compare? ==> a.op == b.op
    ensures a.In? ==> b.In? && SameShape(a.target, b.target) && |a.items| == |b.items|
    ensures a.In? ==> forall i | 0 <= i < |a.items| :: SameShape(a.items[i], b.items[i])
    ensures a.Between? ==> b.Between? && SameShape(a.target, b.target) && SameShape(a.lo, b.lo) && SameShape(a.hi, b.hi)
    ensures a.IsNull? ==> b.IsNull? && SameShape(a.target, b.target)
    ensures a.IsNotNull? ==> b.IsNotNull? && SameShape(a.target, b.target)
  {
  }

  lemma {:induction false} LeafShape(spec: CollectionSpec, ctx: Context, a: Node, b: Node, next: nat)
    requires !a.Or? && !a.And? && !a.Compare? && !a.In? && !a.Between? && !a.IsNull? && !a.IsNotNull?
    requires SameShape(a, b)
    ensures |Leaves(spec, ctx, a)| == |Leaves(spec, ctx, b)| && Tree(spec, ctx, a, next) == Tree(spec, ctx, b, next)
  {
    hide IdentTree;
  }

  lemma {:induction false} ShapeTree(spec: CollectionSpec, ctx: Context, a: Node, b: Node, next: nat)
    requires SameShape(a, b)
    ensures |Leaves(spec, ctx, a)| == |Leaves(spec, ctx, b)| && Tree(spec, ctx, a, next) == Tree(spec, ctx, b, next)
    decreases a
  {
    hide Tree, Leaves, Trees, LeavesOf, DeniedCompare, SameShape;
    TreeParts(spec, ctx, a, next);
    TreeParts(spec, ctx, b, next);
    ShapeParts(a, b);
    if a.Or? || a.And? || a.Compare? {
      ShapeTree(spec, ctx, a.l, b.l, next);
      ShapeTree(spec, ctx, a.r, b.r, next + |Leaves(spec, ctx, a.l)|);
      ShapeDenies(spec, ctx, a.l, a.r, b.l, b.r);
    } else if a.In? {
      ShapeTree(spec, ctx, a.target, b.target, next);
      ShapeTrees(spec, ctx, a.items, b.items, next + |Leaves(spec, ctx, a.target)|);
    } else if a.Between? {
      var k := next + |Leaves(spec, ctx, a.target)|;
      ShapeTree(spec, ctx, a.target, b.target, next);
      ShapeTree(spec, ctx, a.lo, b.lo, k);
      ShapeTree(spec, ctx, a.hi, b.hi, k + |Leaves(spec, ctx, a.lo)|);
    } else if a.IsNull? || a.IsNotNull? {
      ShapeTree(spec, ctx, a.target, b.target, next);
    } else {
      LeafShape(spec, ctx, a, b, next);
    }
  }

  lemma {:induction false} ShapeTrees(spec: CollectionSpec, ctx: Context, a: seq<Node>, b: seq<Node>, next: nat)
    requires |a| == |b| && forall i | 0 <= i < |a| :: SameShape(a[i], b[i])
    ensures |LeavesOf(spec, ctx, a)| == |LeavesOf(spec, ctx, b)|
          && Trees(spec, ctx, a, next) == Trees(spec, ctx, b, next)
    decreases a
  {
    hide SameShape, Tree, Leaves;
    if a != [] {
      assert SameShape(a[0], b[0]);
      ShapeTree(spec, ctx, a[0], b[0], next);
      assert forall i | 0 <= i < |a[1..]| :: a[1..][i] == a[i + 1] && b[1..][i] == b[i + 1];
      ShapeTrees(spec, ctx, a[1..], b[1..], next + |Leaves(spec, ctx, a[0])|);
    }
  }

  /** No literal reaches the text: filters of one shape compile to one text. */
  lemma {:induction false} LiteralsStayOut(spec: CollectionSpec, ctx: Context, a: Node, b: Node, start: nat)
    requires WellFormed(a) && WellFormed(b) && ValidNames(spec, ctx) && SameShape(a, b)
    requires Emit(spec, ctx, a, start).Ok? && Emit(spec, ctx, b, start).Ok?
    ensures Emit(spec, ctx, a, start).value.text == Emit(spec, ctx, b, start).value.text
  {
    hide WellFormed, ValidNames, Emit, Tree, Leaves, SameShape, SqlShow.Shaped, SqlShow.Spell, SqlShow.Atoms;
    ShapeTree(spec, ctx, a, b, start);
    TreeMatches(spec, ctx, a, start);
    TreeMatches(spec, ctx, b, start);
  }
}
