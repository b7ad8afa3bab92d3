/** Compiling a filter keeps its meaning, numbers its placeholders without a
    gap, and lets no literal into the text. */
module FilterCorrect {
  import opened Text
  import opened FilterAst
  import opened FilterSql
  import opened SqlShow
  import opened FilterMeaning
  import opened FilterCompiled
  import FilterPrinter
  import SqlText
  import SqlReadBack

  // ---- text and arguments of the compiled expression ------------------------------------

  /** When `n` compiles, its text spells its tree and its arguments are its leaves. */
  ghost predicate Matches(r: Emitted, e: Expr, leaves: seq<Value>) {
    r.Ok? ==> Shaped(e) && r.value.text == Spell(Atoms(e)) && r.value.args == leaves
  }

  lemma {:induction false} MatchesInfix(spec: CollectionSpec, ctx: Context, l: Node, mid: string, r: Node,
          close: string, next: nat, e: Expr)
    requires IsInfix(e) && mid == MiddleText(e) && close == ClosingText(e)
    requires (Shaped(LeftOf(e)) && Shaped(if e.Like? then SecondOf(e) else e.r) ==> Shaped(e))
    requires LeftOf(e) == Tree(spec, ctx, l, next)
    requires SecondOf(e) == Tree(spec, ctx, r, next + |Leaves(spec, ctx, l)|)
    requires Matches(Emit(spec, ctx, l, next), LeftOf(e), Leaves(spec, ctx, l))
    requires Matches(Emit(spec, ctx, r, next + |Leaves(spec, ctx, l)|), SecondOf(e), Leaves(spec, ctx, r))
    ensures Matches(Infix(spec, ctx, l, mid, r, close, next), e, Leaves(spec, ctx, l) + Leaves(spec, ctx, r))
  {
    hide Emit, Tree, Leaves, Spell, Atoms, Shaped, MiddleText, ClosingText;
    if Infix(spec, ctx, l, mid, r, close, next).Ok? {
      SecondIsRight(e);
      InfixSpells(e);
    }
  }

  /** The right operand, whether or not the expression is shaped. */
  function SecondOf(e: Expr): Expr
    requires IsInfix(e)
  {
    if e.Like? then (if e.pattern.Concat? && e.pattern.l.Concat? then e.pattern.l.r else e.pattern) else e.r
  }

  lemma {:induction false} SecondIsRight(e: Expr)
    requires IsInfix(e) && Shaped(e)
    ensures SecondOf(e) == RightOf(e)
  {
  }

  lemma {:induction false} MatchesPostfix(spec: CollectionSpec, ctx: Context, t: Node, negate: bool, next: nat)
    requires Matches(Emit(spec, ctx, t, next), Tree(spec, ctx, t, next), Leaves(spec, ctx, t))
    ensures Matches(Postfix(spec, ctx, t, if negate then " IS NOT NULL)" else " IS NULL)", next),
                    SqlText.NullTest(Tree(spec, ctx, t, next), negate), Leaves(spec, ctx, t))
  {
    hide Emit, Tree, Leaves, Spell, Atoms;
    var e := SqlText.NullTest(Tree(spec, ctx, t, next), negate);
    if Emit(spec, ctx, t, next).Ok? {
      assert Shaped(e);
      NullSpells(e);
    }
  }

  lemma {:induction false} TreeMatches(spec: CollectionSpec, ctx: Context, n: Node, next: nat)
    requires WellFormed(n) && ValidNames(spec, ctx)
    ensures Matches(Emit(spec, ctx, n, next), Tree(spec, ctx, n, next), Leaves(spec, ctx, n))
    decreases n, 2
  {
    hide WellFormed, ValidNames, Matches;
    FilterPrinter.WellFormedParts(n);
    match n {
      case Or(l, r) => ConnectiveMatches(spec, ctx, n, next);
      case And(l, r) => ConnectiveMatches(spec, ctx, n, next);
      case Compare(op, l, r) => CompareMatches(spec, ctx, n, next);
      case In(t, items) => InMatches(spec, ctx, n, next);
      case Between(t, lo, hi) => BetweenMatches(spec, ctx, n, next);
      case IsNull(t) => TreeMatches(spec, ctx, t, next); MatchesPostfix(spec, ctx, t, false, next);
      case IsNotNull(t) => TreeMatches(spec, ctx, t, next); MatchesPostfix(spec, ctx, t, true, next);
      case Ident(name, path) => IdentMatches(spec, ctx, name, path, next);
      case _ => LeafMatches(spec, ctx, n, next);
    }
  }

  lemma {:induction false} LeafMatches(spec: CollectionSpec, ctx: Context, n: Node, next: nat)
    requires n.MagicVar? || n.StringLit? || n.IntLit? || n.FloatLit? || n.BoolLit? || n.NullLit?
    ensures Matches(Emit(spec, ctx, n, next), Tree(spec, ctx, n, next), Leaves(spec, ctx, n))
  {
    hide Spell;
    SpellOne(D(next));
  }

  lemma {:induction false} IdentMatches(spec: CollectionSpec, ctx: Context, name: string, path: string, next: nat)
    requires ValidNames(spec, ctx)
    ensures Matches(EmitIdent(spec, ctx, name, path), IdentTree(spec, ctx, name, path), [])
  {
    hide Spell, ColumnAllowed, SqlName, Split, SubqueryText, FindRelation;
    if path == "" {
      if ColumnAllowed(spec, name) {
        AllowedName(spec, name);
        SpellOne(W(name));
      }
    } else {
      var segs := Split(path, '.');
      if |segs| == 2 {
        var related := Hop(spec, ctx, segs[0]);
        if related.Ok? && ColumnAllowed(related.value, segs[1]) {
          FindFieldName(spec.fields, segs[0]);
          AllowedName(related.value, segs[1]);
          SubquerySpells(related.value.name, segs[1], spec.name, segs[0]);
        }
      }
    }
  }

  lemma {:induction false} ConnectiveMatches(spec: CollectionSpec, ctx: Context, n: Node, next: nat)
    requires (n.Or? || n.And?) && WellFormed(n.l) && WellFormed(n.r) && ValidNames(spec, ctx)
    ensures Matches(Emit(spec, ctx, n, next), Tree(spec, ctx, n, next), Leaves(spec, ctx, n))
    decreases n, 0
  {
    hide WellFormed, ValidNames, Matches, Spell, Atoms;
    TreeMatches(spec, ctx, n.l, next);
    TreeMatches(spec, ctx, n.r, next + |Leaves(spec, ctx, n.l)|);
    var e := Tree(spec, ctx, n, next);
    MatchesInfix(spec, ctx, n.l, if n.Or? then " OR " else " AND ", n.r, ")", next, e);
  }

  lemma {:induction false} CompareMatches(spec: CollectionSpec, ctx: Context, n: Node, next: nat)
    requires n.Compare? && WellFormed(n.l) && WellFormed(n.r) && ValidNames(spec, ctx)
    ensures Matches(Emit(spec, ctx, n, next), Tree(spec, ctx, n, next), Leaves(spec, ctx, n))
    decreases n, 1
  {
    hide WellFormed, ValidNames, Matches, Spell, Atoms, CompareIsAnonUuid;
    var l, r, op := n.l, n.r, n.op;
    TreeMatches(spec, ctx, l, next);
    TreeMatches(spec, ctx, r, next + |Leaves(spec, ctx, l)|);
    if (l.NullLit? || r.NullLit?) && (op == "=" || op == "!=") {
      var t := if l.NullLit? then r else l;
      MatchesPostfix(spec, ctx, t, op == "!=", next);
    } else if DeniedCompare(spec, ctx, l, r) {
      FalseMatches();
    } else {
      OperatorMatches(spec, ctx, op, l, r, next);
    }
  }

  lemma {:induction false} FalseMatches()
    ensures Matches(Ok(Piece("(false)", [])), SqlText.False, [])
  {
    hide Spell;
    SpellBlock(LP, W("false"), RP);
    assert "(" + "false" + ")" == "(false)";
  }

  lemma {:induction false} OperatorMatches(spec: CollectionSpec, ctx: Context, op: string, l: Node, r: Node, next: nat)
    requires !((l.NullLit? || r.NullLit?) && (op == "=" || op == "!=")) && !DeniedCompare(spec, ctx, l, r)
    requires Matches(Emit(spec, ctx, l, next), Tree(spec, ctx, l, next), Leaves(spec, ctx, l))
    requires var k := next + |Leaves(spec, ctx, l)|;
             Matches(Emit(spec, ctx, r, k), Tree(spec, ctx, r, k), Leaves(spec, ctx, r))
    ensures var a, b := Tree(spec, ctx, l, next), Tree(spec, ctx, r, next + |Leaves(spec, ctx, l)|);
      Matches(EmitCompare(spec, ctx, op, l, r, next), CompareTree(spec, ctx, op, l, r, a, b),
              Leaves(spec, ctx, l) + Leaves(spec, ctx, r))
  {
    hide Matches, Spell, Atoms, CompareIsAnonUuid, Tree, Leaves, Emit, Infix;
    var a, b := Tree(spec, ctx, l, next), Tree(spec, ctx, r, next + |Leaves(spec, ctx, l)|);
    var e := CompareTree(spec, ctx, op, l, r, a, b);
    if op == "~" {
      MatchesInfix(spec, ctx, l, " ILIKE ('%' || ", r, " || '%'))", next, e);
    } else if op == "!~" {
      MatchesInfix(spec, ctx, l, " NOT ILIKE ('%' || ", r, " || '%'))", next, e);
    } else if IsComparison(op) {
      MatchesInfix(spec, ctx, l, " " + op + " ", r, ")", next, e);
    } else {
      ErrMatches(UnsupportedOperator, e, Leaves(spec, ctx, l) + Leaves(spec, ctx, r));
    }
  }

  lemma {:induction false} ErrMatches(x: CompileError, e: Expr, leaves: seq<Value>)
    ensures Matches(Err(x), e, leaves)
  {
  }

  lemma {:induction false} BetweenUnfolds(spec: CollectionSpec, ctx: Context, n: Node, next: nat)
    requires n.Between?
    ensures Emit(spec, ctx, n, next) == BetweenPiece(spec, ctx, n.target, n.lo, n.hi, next)
    ensures var a := next + |Leaves(spec, ctx, n.target)|;
      Tree(spec, ctx, n, next)
      == SqlText.Range(Tree(spec, ctx, n.target, next), Tree(spec, ctx, n.lo, a),
                       Tree(spec, ctx, n.hi, a + |Leaves(spec, ctx, n.lo)|))
    ensures Leaves(spec, ctx, n) == Leaves(spec, ctx, n.target) + Leaves(spec, ctx, n.lo) + Leaves(spec, ctx, n.hi)
  {
  }

  lemma {:induction false} InUnfolds(spec: CollectionSpec, ctx: Context, n: Node, next: nat)
    requires n.In?
    ensures Emit(spec, ctx, n, next) == InPiece(spec, ctx, n.target, n.items, next)
    ensures Tree(spec, ctx, n, next)
         == SqlText.OneOf(
              Tree(spec, ctx, n.target, next), Trees(spec, ctx, n.items, next + |Leaves(spec, ctx, n.target)|))
    ensures Leaves(spec, ctx, n) == Leaves(spec, ctx, n.target) + LeavesOf(spec, ctx, n.items)
  {
    hide Tree, Leaves, Trees, LeavesOf, InPiece;
    TreeParts(spec, ctx, n, next);
  }

  lemma {:induction false} MatchesRange(spec: CollectionSpec, ctx: Context, t: Node, lo: Node, hi: Node, next: nat)
    requires Matches(Emit(spec, ctx, t, next), Tree(spec, ctx, t, next), Leaves(spec, ctx, t))
    requires var a := next + |Leaves(spec, ctx, t)|;
      && Matches(Emit(spec, ctx, lo, a), Tree(spec, ctx, lo, a), Leaves(spec, ctx, lo))
      && var b := a + |Leaves(spec, ctx, lo)|;
         Matches(Emit(spec, ctx, hi, b), Tree(spec, ctx, hi, b), Leaves(spec, ctx, hi))
    ensures var a := next + |Leaves(spec, ctx, t)|;
      Matches(BetweenPiece(spec, ctx, t, lo, hi, next),
              SqlText.Range(
                Tree(spec, ctx, t, next), Tree(spec, ctx, lo, a), Tree(spec, ctx, hi, a + |Leaves(spec, ctx, lo)|)),
              Leaves(spec, ctx, t) + Leaves(spec, ctx, lo) + Leaves(spec, ctx, hi))
  {
    hide Emit, Tree, Leaves, Spell, Atoms;
    if BetweenPiece(spec, ctx, t, lo, hi, next).Ok? {
      var a := next + |Leaves(spec, ctx, t)|;
      var e := SqlText.Range(Tree(spec, ctx, t, next), Tree(spec, ctx, lo, a),
                             Tree(spec, ctx, hi, a + |Leaves(spec, ctx, lo)|));
      assert Shaped(e.e) && Shaped(e.lo) && Shaped(e.hi);
      RangeSpells(e);
    }
  }

  lemma {:induction false} BetweenMatches(spec: CollectionSpec, ctx: Context, n: Node, next: nat)
    requires n.Between? && WellFormed(n.target) && WellFormed(n.lo) && WellFormed(n.hi) && ValidNames(spec, ctx)
    ensures Matches(Emit(spec, ctx, n, next), Tree(spec, ctx, n, next), Leaves(spec, ctx, n))
    decreases n, 0
  {
    hide WellFormed, ValidNames, Matches, Emit, Tree, Leaves;
    var a := next + |Leaves(spec, ctx, n.target)|;
    TreeMatches(spec, ctx, n.target, next);
    TreeMatches(spec, ctx, n.lo, a);
    TreeMatches(spec, ctx, n.hi, a + |Leaves(spec, ctx, n.lo)|);
    BetweenUnfolds(spec, ctx, n, next);
    MatchesRange(spec, ctx, n.target, n.lo, n.hi, next);
  }

  lemma {:induction false} InMatches(spec: CollectionSpec, ctx: Context, n: Node, next: nat)
    requires n.In? && n.items != [] && WellFormed(n.target) && (forall x | x in n.items :: WellFormed(x))
    requires ValidNames(spec, ctx)
    ensures Matches(Emit(spec, ctx, n, next), Tree(spec, ctx, n, next), Leaves(spec, ctx, n))
    decreases n, 0
  {
    hide WellFormed, ValidNames, Spell, Atoms, ItemAtoms, EmitItems, Trees, LeavesOf;
    var k := next + |Leaves(spec, ctx, n.target)|;
    TreeMatches(spec, ctx, n.target, next);
    ItemsMatch(spec, ctx, n.items, true, k);
    InUnfolds(spec, ctx, n, next);
    if Emit(spec, ctx, n, next).Ok? {
      hide Leaves, Emit, Tree;
      assert Emit(spec, ctx, n.target, next).Ok?;
      var e := Tree(spec, ctx, n, next);
      assert Shaped(e);
      OneOfSpells(e);
    }
  }

  lemma {:induction false} ItemsMatch(spec: CollectionSpec, ctx: Context, items: seq<Node>, first: bool, next: nat)
    requires items != [] && (forall x | x in items :: WellFormed(x)) && ValidNames(spec, ctx)
    ensures var r := EmitItems(spec, ctx, items, first, next);
      r.Ok? ==>
        && (forall y | y in Trees(spec, ctx, items, next) :: Shaped(y))
        && r.value.text == (if first then "" else ", ") + Spell(ItemAtoms(Trees(spec, ctx, items, next)))
        && r.value.args == LeavesOf(spec, ctx, items)
    decreases items
  {
    hide WellFormed, ValidNames, Spell, Atoms, ItemAtoms, Tree, Emit, Leaves;
    var r := EmitItems(spec, ctx, items, first, next);
    TreeMatches(spec, ctx, items[0], next);
    var k := next + |Leaves(spec, ctx, items[0])|;
    var es := Trees(spec, ctx, items, next);
    if |items| > 1 {
      ItemsMatch(spec, ctx, items[1..], false, k);
    }
    if r.Ok? {
      var a := Emit(spec, ctx, items[0], next).value;
      assert es[0] == Tree(spec, ctx, items[0], next) && es[1..] == Trees(spec, ctx, items[1..], k);
      forall y | y in es ensures Shaped(y) {
        if y != es[0] {
          assert y in es[1..];
        }
      }
      ListAtoms(es);
      if |items| > 1 {
        ItemTextSplits(es);
      } else {
        assert items[1..] == [];
        assert (if first then "" else ", ") + a.text + "" == (if first then "" else ", ") + a.text;
        assert a.args + [] == a.args;
      }
    }
  }

  lemma {:induction false} CommaSpells()
    ensures Spell([P(","), Gap]) == ", "
  {
    hide Spell;
    SpellBlock(P(","), Gap, Gap);
    assert "," + " " == ", ";
  }

  lemma {:induction false} ItemTextSplits(es: seq<Expr>)
    requires |es| > 1 && forall y | y in es :: Shaped(y)
    ensures Spell(ItemAtoms(es)) == Spell(Atoms(es[0])) + (", " + Spell(ItemAtoms(es[1..])))
  {
    hide Spell, Atoms, ItemAtoms, Shaped;
    ListAtoms(es);
    CommaSpells();
    SpellCat([P(","), Gap], ItemAtoms(es[1..]));
    SpellCat(Atoms(es[0]), [P(","), Gap] + ItemAtoms(es[1..]));
  }

  /** Reading the compiled text with SQL's lexer and precedences gives the tree. */
  lemma {:induction false} CompiledTextReads(spec: CollectionSpec, ctx: Context, n: Node, next: nat)
    requires WellFormed(n) && ValidNames(spec, ctx) && Emit(spec, ctx, n, next).Ok?
    ensures SqlText.SqlRead(Emit(spec, ctx, n, next).value.text) == Some(Tree(spec, ctx, n, next))
    ensures Emit(spec, ctx, n, next).value.args == Leaves(spec, ctx, n)
  {
    hide WellFormed, ValidNames, Emit, Tree, Leaves, Spell, Atoms, SqlText.SqlRead, Shaped;
    TreeMatches(spec, ctx, n, next);
    SqlReadBack.ReadBack(Tree(spec, ctx, n, next));
  }

  // ---- when a filter compiles -----------------------------------------------------------------

  predicate ResolvedIdent(spec: CollectionSpec, ctx: Context, name: string, dotted: string) {
    if dotted == "" then ColumnAllowed(spec, name)
    else
      var path := Split(dotted, '.');
      |path| == 2 && Hop(spec, ctx, path[0]).Ok? && ColumnAllowed(Hop(spec, ctx, path[0]).value, path[1])
  }

  /** Every name resolves to an allowed column at most one hop away, and `null`
      stands only beside `=` or `!=`. A denied comparison is not looked into. */
  predicate Compilable(spec: CollectionSpec, ctx: Context, n: Node)
    decreases n
  {
    match n
    case Or(l, r) => Compilable(spec, ctx, l) && Compilable(spec, ctx, r)
    case And(l, r) => Compilable(spec, ctx, l) && Compilable(spec, ctx, r)
    case Compare(op, l, r) =>
      if (l.NullLit? || r.NullLit?) && (op == "=" || op == "!=") then Compilable(spec, ctx, if l.NullLit? then r else l)
      else if DeniedCompare(spec, ctx, l, r) then true
      else op in COMPARE_OPS && Compilable(spec, ctx, l) && Compilable(spec, ctx, r)
    case In(t, items) => Compilable(spec, ctx, t) && forall x | x in items :: Compilable(spec, ctx, x)
    case Between(t, lo, hi) => Compilable(spec, ctx, t) && Compilable(spec, ctx, lo) && Compilable(spec, ctx, hi)
    case IsNull(t) => Compilable(spec, ctx, t)
    case IsNotNull(t) => Compilable(spec, ctx, t)
    case Ident(name, path) => ResolvedIdent(spec, ctx, name, path)
    case NullLit => false
    case _ => true
  }

  /** `Compile` succeeds exactly on these filters, whatever the first placeholder. */
  lemma {:induction false} CompilesExactly(spec: CollectionSpec, ctx: Context, n: Node, next: nat)
    ensures Emit(spec, ctx, n, next).Ok? <==> Compilable(spec, ctx, n)
    decreases Size(n), 1
  {
    hide CompareIsAnonUuid, ColumnAllowed, Hop, Split;
    match n {
      case Or(l, r) => InfixCompiles(spec, ctx, l, " OR ", r, ")", next);
      case And(l, r) => InfixCompiles(spec, ctx, l, " AND ", r, ")", next);
      case Compare(op, l, r) => CompareCompiles(spec, ctx, n, next);
      case In(t, items) => InCompiles(spec, ctx, n, next);
      case Between(t, lo, hi) => BetweenCompiles(spec, ctx, n, next);
      case IsNull(t) => CompilesExactly(spec, ctx, t, next);
      case IsNotNull(t) => CompilesExactly(spec, ctx, t, next);
      case _ =>
    }
  }

  lemma {:induction false} CompareCompiles(spec: CollectionSpec, ctx: Context, n: Node, next: nat)
    requires n.Compare?
    ensures Emit(spec, ctx, n, next).Ok? <==> Compilable(spec, ctx, n)
    decreases Size(n), 0
  {
    hide CompareIsAnonUuid, Infix;
    var l, r, op := n.l, n.r, n.op;
    if (l.NullLit? || r.NullLit?) && (op == "=" || op == "!=") {
      var t := if l.NullLit? then r else l;
      assert Emit(spec, ctx, n, next)
          == Postfix(spec, ctx, t, if op == "=" then " IS NULL)" else " IS NOT NULL)", next);
      CompilesExactly(spec, ctx, t, next);
    } else if !DeniedCompare(spec, ctx, l, r) {
      InfixCompiles(spec, ctx, l, " ILIKE ('%' || ", r, " || '%'))", next);
      InfixCompiles(spec, ctx, l, " NOT ILIKE ('%' || ", r, " || '%'))", next);
      InfixCompiles(spec, ctx, l, " " + op + " ", r, ")", next);
    }
  }

  lemma {:induction false} InCompiles(spec: CollectionSpec, ctx: Context, n: Node, next: nat)
    requires n.In?
    ensures Emit(spec, ctx, n, next).Ok? <==> Compilable(spec, ctx, n)
    decreases Size(n), 0
  {
    hide EmitItems;
    CompilesExactly(spec, ctx, n.target, next);
    if Emit(spec, ctx, n.target, next).Ok? {
      ItemsCompile(spec, ctx, n.items, true, next + |Emit(spec, ctx, n.target, next).value.args|);
    }
  }

  lemma {:induction false} InfixCompiles(spec: CollectionSpec, ctx: Context, l: Node, mid: string, r: Node,
          close: string, next: nat)
    ensures Infix(spec, ctx, l, mid, r, close, next).Ok? <==> Compilable(spec, ctx, l) && Compilable(spec, ctx, r)
    decreases Size(l) + Size(r), 2
  {
    hide Compilable, Emit;
    CompilesExactly(spec, ctx, l, next);
    if Emit(spec, ctx, l, next).Ok? {
      CompilesExactly(spec, ctx, r, next + |Emit(spec, ctx, l, next).value.args|);
    }
  }

  lemma {:induction false} BetweenCompiles(spec: CollectionSpec, ctx: Context, n: Node, next: nat)
    requires n.Between?
    ensures Emit(spec, ctx, n, next).Ok? <==> Compilable(spec, ctx, n)
    decreases Size(n), 0
  {
    CompilesExactly(spec, ctx, n.target, next);
    if Emit(spec, ctx, n.target, next).Ok? {
      var a := next + |Emit(spec, ctx, n.target, next).value.args|;
      CompilesExactly(spec, ctx, n.lo, a);
      if Emit(spec, ctx, n.lo, a).Ok? {
        CompilesExactly(spec, ctx, n.hi, a + |Emit(spec, ctx, n.lo, a).value.args|);
      }
    }
  }

  lemma {:induction false} ItemsCompile(spec: CollectionSpec, ctx: Context, items: seq<Node>, first: bool, next: nat)
    ensures EmitItems(spec, ctx, items, first, next).Ok? <==> forall x | x in items :: Compilable(spec, ctx, x)
    decreases SizeAll(items), 2 + |items|
  {
    hide Compilable, Emit;
    if items != [] {
      assert items == [items[0]] + items[1..];
      CompilesExactly(spec, ctx, items[0], next);
      if Emit(spec, ctx, items[0], next).Ok? {
        ItemsCompile(spec, ctx, items[1..], false, next + |Emit(spec, ctx, items[0], next).value.args|);
      }
    }
  }
}
