/** Reading the text of a fully parenthesised expression gives it back. */
module SqlReadBack {
  import opened Text
  import opened SqlText
  import opened SqlShow

  ghost predicate Has(ts: seq<Tok>, i: nat, p: seq<Tok>) {
    i + |p| <= |ts| && ts[i..i + |p|] == p
  }

  lemma {:induction false} HasCat(ts: seq<Tok>, i: nat, a: seq<Tok>, b: seq<Tok>)
    requires Has(ts, i, a + b)
    ensures Has(ts, i, a) && Has(ts, i + |a|, b)
  {
    assert ts[i..i + |a|] == ts[i..i + |a + b|][..|a|];
    assert ts[i + |a|..i + |a| + |b|] == ts[i..i + |a + b|][|a|..];
  }

  lemma {:induction false} HasCons(ts: seq<Tok>, i: nat, x: Tok, rest: seq<Tok>)
    requires Has(ts, i, [x] + rest)
    ensures i < |ts| && ts[i] == x && At(ts, i) == x && Has(ts, i + 1, rest)
  {
    HasCat(ts, i, [x], rest);
    assert ts[i..i + 1][0] == ts[i];
  }

  lemma {:induction false} HasOne(ts: seq<Tok>, i: nat, x: Tok)
    requires Has(ts, i, [x])
    ensures i < |ts| && ts[i] == x && At(ts, i) == x
  {
    assert ts[i..i + 1][0] == ts[i];
  }

  /** An operand `p`, the token after it, and the rest. */
  lemma {:induction false} HasThen(ts: seq<Tok>, i: nat, p: seq<Tok>, x: Tok, rest: seq<Tok>)
    requires Has(ts, i, p + ([x] + rest))
    ensures Has(ts, i, p) && i + |p| < |ts| && At(ts, i + |p|) == x && Has(ts, i + |p| + 1, rest)
  {
    HasCat(ts, i, p, [x] + rest);
    HasCons(ts, i + |p|, x, rest);
  }

  lemma {:induction false} HasLast(ts: seq<Tok>, i: nat, p: seq<Tok>, x: Tok)
    requires Has(ts, i, p + [x])
    ensures Has(ts, i, p) && i + |p| < |ts| && At(ts, i + |p|) == x
  {
    HasCat(ts, i, p, [x]);
    HasOne(ts, i + |p|, x);
  }

  // ---- from an operand up to the loosest level ------------------------------------

  predicate Closes(t: Tok) { t == RPT || t == Sym(",") || t == END || t == Kw("from") }

  lemma {:induction false} ToConcat(ts: seq<Tok>, i: nat, e: Expr, j: nat)
    requires i < j <= |ts| && PrimAt(ts, i) == Some((e, j)) && At(ts, j) != Sym("||")
    ensures ConcatAt(ts, i) == Some((e, j))
  {
    hide PrimAt;
  }

  lemma {:induction false} ToLike(ts: seq<Tok>, i: nat, e: Expr, j: nat)
    requires i < j <= |ts| && ConcatAt(ts, i) == Some((e, j))
    requires At(ts, j) !in {Kw("ilike"), Kw("not"), Kw("in"), Kw("between")}
    ensures LikeAt(ts, i) == Some((e, j))
  {
    hide ConcatAt, ListAt;
  }

  lemma {:induction false} ToCmp(ts: seq<Tok>, i: nat, e: Expr, j: nat)
    requires i < j <= |ts| && LikeAt(ts, i) == Some((e, j)) && !IsComparisonTok(At(ts, j))
    ensures CmpAt(ts, i) == Some((e, j))
  {
    hide LikeAt;
  }

  lemma {:induction false} ToNot(ts: seq<Tok>, i: nat, e: Expr, j: nat)
    requires i < j <= |ts| && CmpAt(ts, i) == Some((e, j)) && At(ts, j) != Kw("is") && At(ts, i) != Kw("not")
    ensures NotAt(ts, i) == Some((e, j))
  {
    hide CmpAt;
  }

  lemma {:induction false} ToAnd(ts: seq<Tok>, i: nat, e: Expr, j: nat)
    requires i < j <= |ts| && NotAt(ts, i) == Some((e, j)) && At(ts, j) != Kw("and")
    ensures AndAt(ts, i) == Some((e, j))
  {
    hide NotAt;
  }

  lemma {:induction false} ToOr(ts: seq<Tok>, i: nat, e: Expr, j: nat)
    requires i < j <= |ts| && AndAt(ts, i) == Some((e, j)) && At(ts, j) != Kw("or")
    ensures OrAt(ts, i) == Some((e, j))
  {
    hide AndAt;
  }

  /** What can start an operand the compiler wrote. */
  predicate Opens(t: Tok) { t == LPT || t.Id? || t.Dollar? }

  lemma {:induction false} CmpToOr(ts: seq<Tok>, i: nat, e: Expr, j: nat)
    requires i < j <= |ts| && CmpAt(ts, i) == Some((e, j)) && Opens(At(ts, i)) && Closes(At(ts, j))
    ensures OrAt(ts, i) == Some((e, j))
  {
    hide CmpAt, NotAt, AndAt, OrAt;
    ToNot(ts, i, e, j);
    ToAnd(ts, i, e, j);
    ToOr(ts, i, e, j);
  }

  lemma {:induction false} LikeToOr(ts: seq<Tok>, i: nat, e: Expr, j: nat)
    requires i < j <= |ts| && LikeAt(ts, i) == Some((e, j)) && Opens(At(ts, i)) && Closes(At(ts, j))
    ensures OrAt(ts, i) == Some((e, j))
  {
    hide LikeAt, CmpAt, OrAt;
    ToCmp(ts, i, e, j);
    CmpToOr(ts, i, e, j);
  }

  lemma {:induction false} PrimToOr(ts: seq<Tok>, i: nat, e: Expr, j: nat)
    requires i < j <= |ts| && PrimAt(ts, i) == Some((e, j)) && Opens(At(ts, i)) && Closes(At(ts, j))
    ensures OrAt(ts, i) == Some((e, j))
  {
    hide PrimAt, ConcatAt, LikeAt, OrAt;
    ToConcat(ts, i, e, j);
    ToLike(ts, i, e, j);
    LikeToOr(ts, i, e, j);
  }

  /** An operand before a connective. */
  lemma {:induction false} PrimToNot(ts: seq<Tok>, i: nat, e: Expr, j: nat)
    requires i < j <= |ts| && PrimAt(ts, i) == Some((e, j)) && Opens(At(ts, i))
    requires At(ts, j) == Kw("and") || At(ts, j) == Kw("or") || Closes(At(ts, j))
    ensures NotAt(ts, i) == Some((e, j))
  {
    hide PrimAt, ConcatAt, LikeAt, CmpAt, NotAt;
    ToConcat(ts, i, e, j);
    ToLike(ts, i, e, j);
    ToCmp(ts, i, e, j);
    ToNot(ts, i, e, j);
  }

  // ---- one parenthesised form each ---------------------------------------------------

  lemma {:induction false} Parenthesised(ts: seq<Tok>, i: nat, e: Expr, j: nat)
    requires i < j < |ts| && At(ts, i) == LPT && At(ts, i + 1) != Kw("select")
    requires OrAt(ts, i + 1) == Some((e, j)) && At(ts, j) == RPT
    ensures PrimAt(ts, i) == Some((e, j + 1))
  {
    hide OrAt, SelectAt;
  }

  lemma {:induction false} EitherReads(ts: seq<Tok>, i: nat, l: Expr, j: nat, r: Expr, k: nat)
    requires i < j < k < |ts| && Opens(At(ts, i)) && Opens(At(ts, j + 1)) && At(ts, j) == Kw("or") && At(ts, k) == RPT
    requires PrimAt(ts, i) == Some((l, j)) && PrimAt(ts, j + 1) == Some((r, k))
    ensures OrAt(ts, i) == Some((Either(l, r), k))
  {
    hide PrimAt, NotAt, AndAt;
    PrimToNot(ts, i, l, j);
    ToAnd(ts, i, l, j);
    PrimToNot(ts, j + 1, r, k);
    ToAnd(ts, j + 1, r, k);
    assert OrRest(ts, k, Either(l, r)) == Some((Either(l, r), k));
    assert OrRest(ts, j, l) == Some((Either(l, r), k));
  }

  lemma {:induction false} BothReads(ts: seq<Tok>, i: nat, l: Expr, j: nat, r: Expr, k: nat)
    requires i < j < k < |ts| && Opens(At(ts, i)) && Opens(At(ts, j + 1)) && At(ts, j) == Kw("and") && At(ts, k) == RPT
    requires PrimAt(ts, i) == Some((l, j)) && PrimAt(ts, j + 1) == Some((r, k))
    ensures OrAt(ts, i) == Some((Both(l, r), k))
  {
    hide PrimAt, NotAt, OrAt;
    PrimToNot(ts, i, l, j);
    PrimToNot(ts, j + 1, r, k);
    assert AndRest(ts, k, Both(l, r)) == Some((Both(l, r), k));
    assert AndRest(ts, j, l) == Some((Both(l, r), k));
    ToOr(ts, i, Both(l, r), k);
  }

  lemma {:induction false} CmpReads(ts: seq<Tok>, i: nat, l: Expr, j: nat, r: Expr, k: nat)
    requires i < j < k < |ts| && Opens(At(ts, i)) && IsComparisonTok(At(ts, j)) && At(ts, k) == RPT
    requires PrimAt(ts, i) == Some((l, j)) && PrimAt(ts, j + 1) == Some((r, k))
    ensures OrAt(ts, i) == Some((Cmp(ts[j].s, l, r), k))
  {
    hide PrimAt, ConcatAt, LikeAt, OrAt;
    ToConcat(ts, i, l, j);
    ToLike(ts, i, l, j);
    ToConcat(ts, j + 1, r, k);
    ToLike(ts, j + 1, r, k);
    CmpToOr(ts, i, Cmp(ts[j].s, l, r), k);
  }

  /** `( '%' || x || '%' )` is one operand. */
  lemma {:induction false} PatternReads(ts: seq<Tok>, i: nat, x: Expr, k: nat)
    requires i + 3 < k && k + 2 < |ts|
    requires At(ts, i) == LPT && At(ts, i + 1) == Lit("%") && At(ts, i + 2) == Sym("||")
    requires PrimAt(ts, i + 3) == Some((x, k))
    requires At(ts, k) == Sym("||") && At(ts, k + 1) == Lit("%") && At(ts, k + 2) == RPT
    ensures PrimAt(ts, i) == Some((Pattern(x), k + 3))
  {
    var p := Pattern(x);
    assert ConcatAt(ts, i + 1) == Some((p, k + 2)) by {
      hide OrAt, LikeAt, SelectAt;
      assert PrimAt(ts, i + 1) == Some((Quoted("%"), i + 2));
      assert PrimAt(ts, k + 1) == Some((Quoted("%"), k + 2));
      ConcatSteps(ts, i + 1, x, k);
    }
    hide PrimAt, ConcatAt, LikeAt, CmpAt, NotAt, AndAt, OrAt;
    ToLike(ts, i + 1, p, k + 2);
    ToCmp(ts, i + 1, p, k + 2);
    ToNot(ts, i + 1, p, k + 2);
    ToAnd(ts, i + 1, p, k + 2);
    ToOr(ts, i + 1, p, k + 2);
    Parenthesised(ts, i, p, k + 2);
  }

  lemma {:induction false} ConcatSteps(ts: seq<Tok>, i: nat, x: Expr, k: nat)
    requires i + 2 < k && k + 1 < |ts|
    requires PrimAt(ts, i) == Some((Quoted("%"), i + 1)) && At(ts, i + 1) == Sym("||")
    requires PrimAt(ts, i + 2) == Some((x, k)) && At(ts, k) == Sym("||")
    requires At(ts, k + 2) != Sym("||")
    requires PrimAt(ts, k + 1) == Some((Quoted("%"), k + 2))
    ensures ConcatAt(ts, i) == Some((Pattern(x), k + 2))
  {
    hide PrimAt;
    var a := Concat(Quoted("%"), x);
    assert ConcatRest(ts, k + 2, Concat(a, Quoted("%"))) == Some((Pattern(x), k + 2));
    assert ConcatRest(ts, k, a) == Some((Pattern(x), k + 2));
    assert ConcatRest(ts, i + 1, Quoted("%")) == Some((Pattern(x), k + 2));
  }

  lemma {:induction false} LikeReads(ts: seq<Tok>, i: nat, e: Expr, j: nat, negate: bool, x: Expr, k: nat)
    requires i < j && Opens(At(ts, i)) && PrimAt(ts, i) == Some((e, j))
    requires var m := if negate then j + 1 else j;
      m + 1 < k < |ts| && (negate ==> At(ts, j) == Kw("not")) && At(ts, m) == Kw("ilike")
      && PrimAt(ts, m + 1) == Some((Pattern(x), k)) && At(ts, k) == RPT
    ensures OrAt(ts, i) == Some((Like(negate, e, Pattern(x)), k))
  {
    hide PrimAt, ConcatAt, OrAt, ListAt;
    var m := if negate then j + 1 else j;
    ToConcat(ts, i, e, j);
    ToConcat(ts, m + 1, Pattern(x), k);
    assert LikeAt(ts, i) == Some((Like(negate, e, Pattern(x)), k));
    LikeToOr(ts, i, Like(negate, e, Pattern(x)), k);
  }

  lemma {:induction false} RangeReads(ts: seq<Tok>, i: nat, e: Expr, j: nat, lo: Expr, k: nat, hi: Expr, m: nat)
    requires i < j < k < m < |ts| && Opens(At(ts, i)) && At(ts, j) == Kw("between") && At(ts, k) == Kw("and")
          && At(ts, m) == RPT
    requires PrimAt(ts, i) == Some((e, j)) && PrimAt(ts, j + 1) == Some((lo, k)) && PrimAt(ts, k + 1) == Some((hi, m))
    ensures OrAt(ts, i) == Some((Range(e, lo, hi), m))
  {
    hide PrimAt, ConcatAt, OrAt, ListAt;
    ToConcat(ts, i, e, j);
    ToConcat(ts, j + 1, lo, k);
    ToConcat(ts, k + 1, hi, m);
    assert LikeAt(ts, i) == Some((Range(e, lo, hi), m));
    LikeToOr(ts, i, Range(e, lo, hi), m);
  }

  lemma {:induction false} OneOfReads(ts: seq<Tok>, i: nat, e: Expr, j: nat, items: seq<Expr>, k: nat)
    requires i < j && j + 2 < k && k + 1 < |ts| && Opens(At(ts, i))
    requires At(ts, j) == Kw("in") && At(ts, j + 1) == LPT && At(ts, k) == RPT && At(ts, k + 1) == RPT
    requires PrimAt(ts, i) == Some((e, j)) && ListAt(ts, j + 2, []) == Some((items, k))
    ensures OrAt(ts, i) == Some((OneOf(e, items), k + 1))
  {
    hide PrimAt, ConcatAt, OrAt, ListAt;
    ToConcat(ts, i, e, j);
    assert LikeAt(ts, i) == Some((OneOf(e, items), k + 1));
    LikeToOr(ts, i, OneOf(e, items), k + 1);
  }

  lemma {:induction false} NullReads(ts: seq<Tok>, i: nat, e: Expr, j: nat, negate: bool)
    requires var m := if negate then j + 2 else j + 1;
      i < j && m + 1 < |ts| && Opens(At(ts, i)) && At(ts, j) == Kw("is") && (negate ==> At(ts, j + 1) == Kw("not"))
      && At(ts, m) == Kw("null") && At(ts, m + 1) == RPT
    requires PrimAt(ts, i) == Some((e, j))
    ensures OrAt(ts, i) == Some((NullTest(e, negate), if negate then j + 3 else j + 2))
  {
    hide PrimAt, ConcatAt, LikeAt, CmpAt, AndAt, OrAt;
    ToConcat(ts, i, e, j);
    ToLike(ts, i, e, j);
    ToCmp(ts, i, e, j);
    var k := if negate then j + 3 else j + 2;
    assert NotAt(ts, i) == Some((NullTest(e, negate), k));
    ToAnd(ts, i, NullTest(e, negate), k);
    ToOr(ts, i, NullTest(e, negate), k);
  }

  lemma {:induction false} QualifiedReads(ts: seq<Tok>, i: nat, e: Expr, rest: seq<Tok>)
    requires e.QCol? && Has(ts, i, QualifiedToks(e) + rest)
    ensures PrimAt(ts, i) == Some((e, i + 3)) && Opens(At(ts, i)) && Has(ts, i + 3, rest)
  {
    hide OrAt, SelectAt;
    HasCat(ts, i, QualifiedToks(e), rest);
    HasCons(ts, i, Id(e.table), [Sym(".")] + [Id(e.name)]);
    HasCons(ts, i + 1, Sym("."), [Id(e.name)]);
    HasOne(ts, i + 2, Id(e.name));
  }

  lemma {:induction false} SubqueryReads(ts: seq<Tok>, i: nat, e: Expr)
    requires Shaped(e) && e.Subquery? && Has(ts, i, Tokens(e))
    ensures PrimAt(ts, i) == Some((e, i + |Tokens(e)|))
  {
    hide Has, PrimAt, OrAt, Tokens, QualifiedToks, SelectAt, FromToks, CondToks;
    SubqueryToks(e);
    assert [LPT, Kw("select")] + (QualifiedToks(e.sel) + FromToks(e))
        == [LPT] + ([Kw("select")] + (QualifiedToks(e.sel) + FromToks(e)));
    HasCons(ts, i, LPT, [Kw("select")] + (QualifiedToks(e.sel) + FromToks(e)));
    HasCons(ts, i + 1, Kw("select"), QualifiedToks(e.sel) + FromToks(e));
    QualifiedReads(ts, i + 2, e.sel, FromToks(e));
    SelectReads(ts, i + 1, e);
    SubqueryPrim(ts, i);
    QualifiedLen(e);
  }

  lemma {:induction false} QualifiedLen(e: Expr)
    requires Shaped(e) && e.Subquery?
    ensures |QualifiedToks(e.sel)| == 3 && |FromToks(e)| == 11
  {
  }

  lemma {:induction false} SubqueryPrim(ts: seq<Tok>, i: nat)
    requires i + 1 < |ts| && At(ts, i) == LPT && At(ts, i + 1) == Kw("select")
    ensures PrimAt(ts, i) == SelectAt(ts, i + 1)
  {
    hide SelectAt, OrAt;
  }

  lemma {:induction false} SelectReads(ts: seq<Tok>, i: nat, e: Expr)
    requires Shaped(e) && e.Subquery? && i < |ts|
    requires PrimAt(ts, i + 1) == Some((e.sel, i + 4)) && Opens(At(ts, i + 1)) && Has(ts, i + 4, FromToks(e))
    ensures SelectAt(ts, i) == Some((e, i + 15))
  {
    hide Has, PrimAt, OrAt, QualifiedToks;
    HasCons(ts, i + 4, Kw("from"), [Id(e.from)] + ([Kw("where")] + CondToks(e)));
    HasCons(ts, i + 5, Id(e.from), [Kw("where")] + CondToks(e));
    HasCons(ts, i + 6, Kw("where"), CondToks(e));
    PrimToOr(ts, i + 1, e.sel, i + 4);
    var c := e.cond;
    QualifiedReads(ts, i + 7, c.l, [Sym("=")] + (QualifiedToks(c.r) + [RPT]));
    HasCons(ts, i + 10, Sym("="), QualifiedToks(c.r) + [RPT]);
    QualifiedReads(ts, i + 11, c.r, [RPT]);
    HasOne(ts, i + 14, RPT);
    CmpReads(ts, i + 7, c.l, i + 10, c.r, i + 14);
    assert OrAt(ts, i + 7) == Some((c, i + 14));
  }

  // ---- every expression --------------------------------------------------------------

  lemma {:induction false} LeafReads(ts: seq<Tok>, i: nat, e: Expr)
    requires Shaped(e) && (e.Col? || e.Arg? || e.False?) && Has(ts, i, Tokens(e))
    requires At(ts, i + |Tokens(e)|) != Sym(".")
    ensures PrimAt(ts, i) == Some((e, i + |Tokens(e)|)) && Opens(At(ts, i))
  {
    match e {
      case Col(c) =>
        hide PrimAt, OrAt;
        OneTok(W(c));
        NameTok(c);
        HasOne(ts, i, Id(c));
        ColPrim(ts, i, c);
      case Arg(n) =>
        hide PrimAt, OrAt;
        OneTok(D(n));
        HasOne(ts, i, Dollar(n));
        ArgPrim(ts, i, n);
      case False => FalseReads(ts, i);
    }
  }

  lemma {:induction false} FalseReads(ts: seq<Tok>, i: nat)
    requires Has(ts, i, Tokens(False))
    ensures PrimAt(ts, i) == Some((False, i + |Tokens(False)|)) && Opens(At(ts, i))
  {
    hide PrimAt, OrAt, ConcatAt, LikeAt, CmpAt, NotAt, AndAt, Tokens, Has;
    FalseParts(ts, i);
    FalsePrim(ts, i + 1);
    ToConcat(ts, i + 1, False, i + 2);
    ToLike(ts, i + 1, False, i + 2);
    ToCmp(ts, i + 1, False, i + 2);
    ToNot(ts, i + 1, False, i + 2);
    ToAnd(ts, i + 1, False, i + 2);
    ToOr(ts, i + 1, False, i + 2);
    Parenthesised(ts, i, False, i + 2);
  }

  lemma {:induction false} FalseParts(ts: seq<Tok>, i: nat)
    requires Has(ts, i, Tokens(False))
    ensures |Tokens(False)| == 3 && i + 2 < |ts| && At(ts, i) == LPT && At(ts, i + 1) == Kw("false")
          && At(ts, i + 2) == RPT
  {
    hide Has;
    Keyword("false", "false");
    assert [LPT, Kw("false"), RPT] == [LPT] + ([Kw("false")] + [RPT]);
    HasCons(ts, i, LPT, [Kw("false")] + [RPT]);
    HasCons(ts, i + 1, Kw("false"), [RPT]);
    HasOne(ts, i + 2, RPT);
  }

  lemma {:induction false} ColPrim(ts: seq<Tok>, i: nat, c: string)
    requires i < |ts| && At(ts, i) == Id(c) && At(ts, i + 1) != Sym(".")
    ensures PrimAt(ts, i) == Some((Col(c), i + 1))
  {
    hide OrAt, SelectAt;
  }

  lemma {:induction false} ArgPrim(ts: seq<Tok>, i: nat, n: nat)
    requires i < |ts| && At(ts, i) == Dollar(n)
    ensures PrimAt(ts, i) == Some((Arg(n), i + 1))
  {
    hide OrAt, SelectAt;
  }

  lemma {:induction false} FalsePrim(ts: seq<Tok>, i: nat)
    requires i < |ts| && At(ts, i) == Kw("false")
    ensures PrimAt(ts, i) == Some((False, i + 1))
  {
    hide OrAt, SelectAt;
  }

  lemma {:induction false} OperandReads(ts: seq<Tok>, i: nat, e: Expr)
    requires Shaped(e) && Has(ts, i, Tokens(e)) && At(ts, i + |Tokens(e)|) != Sym(".")
    ensures PrimAt(ts, i) == Some((e, i + |Tokens(e)|)) && Opens(At(ts, i))
    decreases e, 2
  {
    hide Has, PrimAt, OrAt, Tokens;
    if e.Col? || e.Arg? || e.False? {
      LeafReads(ts, i, e);
    } else if IsInfix(e) {
      InfixReads(ts, i, e);
    } else if e.Range? {
      RangeOperandReads(ts, i, e);
    } else if e.OneOf? {
      ListOperandReads(ts, i, e);
    } else if e.NullTest? {
      NullOperandReads(ts, i, e);
    } else {
      SubqueryReads(ts, i, e);
      SubqueryToks(e);
      assert [LPT, Kw("select")] + (QualifiedToks(e.sel) + FromToks(e))
          == [LPT] + ([Kw("select")] + (QualifiedToks(e.sel) + FromToks(e)));
      HasCons(ts, i, LPT, [Kw("select")] + (QualifiedToks(e.sel) + FromToks(e)));
    }
  }

  /** Where the parts of an infix form lie. */
  lemma {:induction false} InfixParts(ts: seq<Tok>, i: nat, e: Expr)
    requires Shaped(e) && IsInfix(e) && Has(ts, i, Tokens(e))
    ensures At(ts, i) == LPT && |Tokens(e)| == 1 + |Tokens(LeftOf(e))| + |MiddleToks(e)| + |Tokens(RightOf(e))|
          + |ClosingToks(e)|
    ensures Has(ts, i + 1, Tokens(LeftOf(e)))
    ensures var j := i + 1 + |Tokens(LeftOf(e))|;
      && Has(ts, j, MiddleToks(e))
      && Has(ts, j + |MiddleToks(e)|, Tokens(RightOf(e)))
      && Has(ts, j + |MiddleToks(e)| + |Tokens(RightOf(e))|, ClosingToks(e))
  {
    hide Has, Tokens, MiddleToks, ClosingToks;
    InfixToks(e);
    var a, b := Tokens(LeftOf(e)), Tokens(RightOf(e));
    var m, c := MiddleToks(e), ClosingToks(e);
    HasCons(ts, i, LPT, a + (m + (b + c)));
    HasCat(ts, i + 1, a, m + (b + c));
    HasCat(ts, i + 1 + |a|, m, b + c);
    HasCat(ts, i + 1 + |a| + |m|, b, c);
  }

  lemma {:induction false} InfixReads(ts: seq<Tok>, i: nat, e: Expr)
    requires Shaped(e) && IsInfix(e) && Has(ts, i, Tokens(e))
    ensures PrimAt(ts, i) == Some((e, i + |Tokens(e)|)) && At(ts, i) == LPT
    decreases e, 1
  {
    hide Has, PrimAt, OrAt, Tokens;
    InfixParts(ts, i, e);
    if e.Like? {
      LikeOperandReads(ts, i, e);
    } else {
      BinaryReads(ts, i, e);
    }
  }

  lemma {:induction false} BinaryReads(ts: seq<Tok>, i: nat, e: Expr)
    requires Shaped(e) && (e.Either? || e.Both? || e.Cmp?) && Has(ts, i, Tokens(e))
    ensures PrimAt(ts, i) == Some((e, i + |Tokens(e)|))
    decreases e, 0
  {
    hide Has, PrimAt, OrAt, Tokens;
    InfixParts(ts, i, e);
    var j := i + 1 + |Tokens(e.l)|;
    var k := j + 1 + |Tokens(e.r)|;
    HasOne(ts, j, MiddleToks(e)[0]);
    HasOne(ts, k, RPT);
    OperandReads(ts, i + 1, e.l);
    OperandReads(ts, j + 1, e.r);
    match e {
      case Either(_, _) => EitherReads(ts, i + 1, e.l, j, e.r, k);
      case Both(_, _) => BothReads(ts, i + 1, e.l, j, e.r, k);
      case Cmp(_, _, _) => CmpReads(ts, i + 1, e.l, j, e.r, k);
    }
    Parenthesised(ts, i, e, k);
  }

  /** The tokens between and after the operands of ILIKE. */
  lemma {:induction false} LikeParts(ts: seq<Tok>, j: nat, e: Expr, k: nat)
    requires e.Like? && Has(ts, j, MiddleToks(e)) && Has(ts, k, ClosingToks(e))
    ensures |ClosingToks(e)| == 4 && |MiddleToks(e)| == if e.negate then 5 else 4
    ensures e.negate ==> At(ts, j) == Kw("not")
    ensures var n := if e.negate then j + 1 else j;
      At(ts, n) == Kw("ilike") && At(ts, n + 1) == LPT && At(ts, n + 2) == Lit("%") && At(ts, n + 3) == Sym("||")
    ensures At(ts, k) == Sym("||") && At(ts, k + 1) == Lit("%") && At(ts, k + 2) == RPT && At(ts, k + 3) == RPT
    ensures k + 3 < |ts|
  {
    hide Has;
    var rest := [Kw("ilike")] + ([LPT] + ([Lit("%")] + [Sym("||")]));
    var n := if e.negate then j + 1 else j;
    HasCat(ts, j, if e.negate then [Kw("not")] else [], rest);
    if e.negate {
      HasOne(ts, j, Kw("not"));
    }
    HasCons(ts, n, Kw("ilike"), [LPT] + ([Lit("%")] + [Sym("||")]));
    HasCons(ts, n + 1, LPT, [Lit("%")] + [Sym("||")]);
    HasCons(ts, n + 2, Lit("%"), [Sym("||")]);
    HasOne(ts, n + 3, Sym("||"));
    HasCons(ts, k, Sym("||"), [Lit("%")] + ([RPT] + [RPT]));
    HasCons(ts, k + 1, Lit("%"), [RPT] + [RPT]);
    HasCons(ts, k + 2, RPT, [RPT]);
    HasOne(ts, k + 3, RPT);
  }

  lemma {:induction false} LikeOperandReads(ts: seq<Tok>, i: nat, e: Expr)
    requires Shaped(e) && e.Like? && Has(ts, i, Tokens(e))
    ensures PrimAt(ts, i) == Some((e, i + |Tokens(e)|))
    decreases e, 0
  {
    hide Has, PrimAt, OrAt, Tokens, MiddleToks, ClosingToks;
    InfixParts(ts, i, e);
    var l, x := e.e, e.pattern.l.r;
    var j := i + 1 + |Tokens(l)|;
    var n := if e.negate then j + 1 else j;
    var k := j + |MiddleToks(e)| + |Tokens(x)|;
    LikeParts(ts, j, e, k);
    OperandReads(ts, i + 1, l);
    OperandReads(ts, n + 4, x);
    PatternReads(ts, n + 1, x, k);
    LikeReads(ts, i + 1, l, j, e.negate, x, k + 3);
    assert e == Like(e.negate, l, Pattern(x));
    Parenthesised(ts, i, e, k + 3);
  }

  lemma {:induction false} RangeOperandReads(ts: seq<Tok>, i: nat, e: Expr)
    requires Shaped(e) && e.Range? && Has(ts, i, Tokens(e))
    ensures PrimAt(ts, i) == Some((e, i + |Tokens(e)|)) && At(ts, i) == LPT
    decreases e, 0
  {
    hide Has, PrimAt, OrAt, Tokens;
    RangeParts(ts, i, e);
    var j := i + 1 + |Tokens(e.e)|;
    var k := j + 1 + |Tokens(e.lo)|;
    OperandReads(ts, i + 1, e.e);
    OperandReads(ts, j + 1, e.lo);
    OperandReads(ts, k + 1, e.hi);
    RangeReads(ts, i + 1, e.e, j, e.lo, k, e.hi, k + 1 + |Tokens(e.hi)|);
    Parenthesised(ts, i, e, k + 1 + |Tokens(e.hi)|);
  }

  lemma {:induction false} RangeParts(ts: seq<Tok>, i: nat, e: Expr)
    requires Shaped(e) && e.Range? && Has(ts, i, Tokens(e))
    ensures var (a, b, c) := (Tokens(e.e), Tokens(e.lo), Tokens(e.hi));
            var j := i + 1 + |a|;
            var k := j + 1 + |b|;
            var m := k + 1 + |c|;
            && At(ts, i) == LPT && Has(ts, i + 1, a) && At(ts, j) == Kw("between") && Has(ts, j + 1, b)
            && At(ts, k) == Kw("and") && Has(ts, k + 1, c) && At(ts, m) == RPT && m < |ts|
            && m + 1 == i + |Tokens(e)|
  {
    hide Has, Tokens;
    RangeToks(e);
    var a, b, c := Tokens(e.e), Tokens(e.lo), Tokens(e.hi);
    HasCons(ts, i, LPT, a + ([Kw("between")] + (b + ([Kw("and")] + (c + [RPT])))));
    HasThen(ts, i + 1, a, Kw("between"), b + ([Kw("and")] + (c + [RPT])));
    var j := i + 1 + |a|;
    HasThen(ts, j + 1, b, Kw("and"), c + [RPT]);
    HasLast(ts, j + 1 + |b| + 1, c, RPT);
  }

  lemma {:induction false} NullParts(ts: seq<Tok>, j: nat, negate: bool)
    requires Has(ts, j, NullTestToks(negate))
    ensures |NullTestToks(negate)| == if negate then 4 else 3
    ensures var m := if negate then j + 2 else j + 1;
      At(ts, j) == Kw("is") && (negate ==> At(ts, j + 1) == Kw("not")) && At(ts, m) == Kw("null")
      && At(ts, m + 1) == RPT && m + 1 < |ts|
  {
    hide Has;
    var m := if negate then j + 2 else j + 1;
    var tail := if negate then [Kw("not")] + ([Kw("null")] + [RPT]) else [Kw("null")] + [RPT];
    HasCons(ts, j, Kw("is"), tail);
    if negate {
      HasCons(ts, j + 1, Kw("not"), [Kw("null")] + [RPT]);
    }
    HasCons(ts, m, Kw("null"), [RPT]);
    HasOne(ts, m + 1, RPT);
  }

  lemma {:induction false} NullOperandReads(ts: seq<Tok>, i: nat, e: Expr)
    requires Shaped(e) && e.NullTest? && Has(ts, i, Tokens(e))
    ensures PrimAt(ts, i) == Some((e, i + |Tokens(e)|)) && At(ts, i) == LPT
    decreases e, 0
  {
    hide Has, PrimAt, OrAt, Tokens, NullTestToks;
    NullToks(e);
    var a := Tokens(e.e);
    var j := i + 1 + |a|;
    HasCons(ts, i, LPT, a + NullTestToks(e.negate));
    HasCat(ts, i + 1, a, NullTestToks(e.negate));
    NullParts(ts, j, e.negate);
    OperandReads(ts, i + 1, e.e);
    NullReads(ts, i + 1, e.e, j, e.negate);
    Parenthesised(ts, i, e, if e.negate then j + 3 else j + 2);
  }

  lemma {:induction false} ListOperandReads(ts: seq<Tok>, i: nat, e: Expr)
    requires Shaped(e) && e.OneOf? && Has(ts, i, Tokens(e))
    ensures PrimAt(ts, i) == Some((e, i + |Tokens(e)|)) && At(ts, i) == LPT
    decreases e, 0
  {
    hide Has, PrimAt, OrAt, Tokens, ItemTokens;
    OneOfToks(e);
    var a, b := Tokens(e.e), ItemTokens(e.items);
    HasCons(ts, i, LPT, a + ([Kw("in")] + ([LPT] + (b + ([RPT] + [RPT])))));
    HasThen(ts, i + 1, a, Kw("in"), [LPT] + (b + ([RPT] + [RPT])));
    var j := i + 1 + |a|;
    HasCons(ts, j + 1, LPT, b + ([RPT] + [RPT]));
    HasThen(ts, j + 2, b, RPT, [RPT]);
    var k := j + 2 + |b|;
    HasOne(ts, k + 1, RPT);
    OperandReads(ts, i + 1, e.e);
    ItemsRead(ts, j + 2, e.items, []);
    assert [] + e.items == e.items;
    OneOfReads(ts, i + 1, e.e, j, e.items, k);
    Parenthesised(ts, i, e, k + 1);
  }

  lemma {:induction false} ItemsRead(ts: seq<Tok>, i: nat, items: seq<Expr>, before: seq<Expr>)
    requires items != [] && (forall y | y in items :: Shaped(y)) && Has(ts, i, ItemTokens(items))
    requires At(ts, i + |ItemTokens(items)|) == RPT && i + |ItemTokens(items)| <= |ts|
    ensures ListAt(ts, i, before) == Some((before + items, i + |ItemTokens(items)|))
    ensures i < i + |ItemTokens(items)|
    decreases items
  {
    hide Has, PrimAt, OrAt, Tokens, ItemTokens, Shaped;
    ItemsToks(items);
    var a := Tokens(items[0]);
    var j := i + |a|;
    if |items| > 1 {
      var b := ItemTokens(items[1..]);
      HasThen(ts, i, a, Sym(","), b);
      ItemsRead(ts, j + 1, items[1..], before + [items[0]]);
      assert before + [items[0]] + items[1..] == before + items;
    } else {
      assert before + [items[0]] == before + items;
    }
    OperandReads(ts, i, items[0]);
    PrimToOr(ts, i, items[0], j);
  }

  /** The text of an expression the compiler writes denotes that expression. */
  lemma {:induction false} ReadBack(e: Expr)
    requires Shaped(e)
    ensures SqlRead(Spell(Atoms(e))) == Some(e)
  {
    hide SqlLex, PrimAt, OrAt, Spell, Atoms, Shaped;
    AtomsSpaced(e);
    LexUndoesSpell(Atoms(e));
    var ts := Tokens(e);
    assert ts[0..|ts|] == ts;
    OperandReads(ts, 0, e);
    PrimToOr(ts, 0, e, |ts|);
  }
}
