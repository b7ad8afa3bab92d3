/** Fully parenthesised SQL as the compiler spaces it, and the proof that
    reading the text gives back the expression. */
module SqlShow {
  import opened Text
  import opened FilterAst
  import opened FilterLexer
  import opened SqlText

  datatype Atom = Gap | W(w: string) | D(n: nat) | Q(s: string) | P(s: string)

  const LP := P("(")
  const RP := P(")")
  const DT := P(".")

  /** Column and table names as the schema builder admits them: lower case, not
      a reserved word. */
  predicate SqlName(s: string) { IsWord(s) && ToLower(s) == s && s !in SQL_KEYWORDS }

  function SpellAtom(a: Atom): string {
    match a
    case Gap => " "
    case W(w) => w
    case D(n) => "$" + Decimal(n)
    case Q(s) => "'" + s + "'"
    case P(s) => s
  }

  function TokOf(a: Atom): seq<Tok> {
    match a
    case Gap => []
    case W(w) => [WordTok(w)]
    case D(n) => [Dollar(n)]
    case Q(s) => [Lit(s)]
    case P(s) => [Sym(s)]
  }

  function Spell(p: seq<Atom>): string {
    if p == [] then "" else SpellAtom(p[0]) + Spell(p[1..])
  }

  function Toks(p: seq<Atom>): seq<Tok> {
    if p == [] then [] else TokOf(p[0]) + Toks(p[1..])
  }

  // ---- the text of an expression ---------------------------------------------------

  function Pattern(x: Expr): Expr { Concat(Concat(Quoted("%"), x), Quoted("%")) }

  predicate IsPattern(p: Expr) {
    p.Concat? && p.l.Concat? && p.l.l == Quoted("%") && p.r == Quoted("%")
  }

  predicate IsQualified(e: Expr) { e.QCol? && SqlName(e.table) && SqlName(e.name) }

  /** The expressions the compiler writes: every compound in parentheses. */
  predicate Shaped(e: Expr) {
    match e
    case Col(c) => SqlName(c)
    case Arg(_) => true
    case False => true
    case Either(l, r) => Shaped(l) && Shaped(r)
    case Both(l, r) => Shaped(l) && Shaped(r)
    case Cmp(op, l, r) => IsCmpOp(op) && Shaped(l) && Shaped(r)
    case Like(_, x, p) => Shaped(x) && IsPattern(p) && Shaped(p.l.r)
    case OneOf(x, items) => Shaped(x) && items != [] && forall y | y in items :: Shaped(y)
    case Range(x, lo, hi) => Shaped(x) && Shaped(lo) && Shaped(hi)
    case NullTest(x, _) => Shaped(x)
    case Subquery(sel, from, cond) =>
      && IsQualified(sel) && SqlName(from)
      && cond.Cmp? && cond.op == "=" && IsQualified(cond.l) && IsQualified(cond.r)
    case _ => false
  }

  predicate IsInfix(e: Expr) { e.Either? || e.Both? || e.Cmp? || e.Like? }

  function LeftOf(e: Expr): Expr
    requires IsInfix(e)
  {
    if e.Like? then e.e else e.l
  }

  function RightOf(e: Expr): Expr
    requires IsInfix(e) && Shaped(e)
  {
    if e.Like? then e.pattern.l.r else e.r
  }

  function Word(w: string): seq<Atom> { [Gap, W(w), Gap] }

  function Oper(op: string): seq<Atom> { [Gap, P(op), Gap] }

  function LikeAtoms(negate: bool): seq<Atom> {
    (if negate then [Gap, W("NOT")] else []) + (Word("ILIKE") + ([LP, Q("%")] + Oper("||")))
  }

  function Middle(e: Expr): seq<Atom>
    requires IsInfix(e)
  {
    match e
    case Either(_, _) => Word("OR")
    case Both(_, _) => Word("AND")
    case Cmp(op, _, _) => Oper(op)
    case Like(negate, _, _) =>
      LikeAtoms(negate)
  }

  function Closing(e: Expr): seq<Atom> {
    if e.Like? then Oper("||") + ([Q("%"), RP] + [RP]) else [RP]
  }

  function QualifiedAtoms(e: Expr): seq<Atom>
    requires e.QCol?
  {
    [W(e.table), DT, W(e.name)]
  }

  function NullAtoms(negate: bool): seq<Atom> {
    Word("IS") + ((if negate then [W("NOT"), Gap] else []) + [W("NULL"), RP])
  }

  function CondAtoms(e: Expr): seq<Atom>
    requires e.Subquery? && e.cond.Cmp? && e.cond.l.QCol? && e.cond.r.QCol?
  {
    QualifiedAtoms(e.cond.l) + (Oper("=") + (QualifiedAtoms(e.cond.r) + [RP]))
  }

  function FromAtoms(e: Expr): seq<Atom>
    requires e.Subquery? && e.cond.Cmp? && e.cond.l.QCol? && e.cond.r.QCol?
  {
    Word("FROM") + ([W(e.from)] + (Word("WHERE") + CondAtoms(e)))
  }

  function Atoms(e: Expr): seq<Atom>
    requires Shaped(e)
    decreases e
  {
    if IsInfix(e) then [LP] + (Atoms(LeftOf(e)) + (Middle(e) + (Atoms(RightOf(e)) + Closing(e))))
    else
      match e
      case Col(c) => [W(c)]
      case Arg(n) => [D(n)]
      case False => [LP, W("false"), RP]
      case OneOf(x, items) => [LP] + (Atoms(x) + (Word("IN") + ([LP] + (ItemAtoms(items) + ([RP] + [RP])))))
      case Range(x, lo, hi) =>
        [LP] + (Atoms(x) + (Word("BETWEEN") + (Atoms(lo) + (Word("AND") + (Atoms(hi) + [RP])))))
      case NullTest(x, negate) => [LP] + (Atoms(x) + NullAtoms(negate))
      case Subquery(sel, from, cond) =>
        [LP, W("SELECT"), Gap] + (QualifiedAtoms(sel) + FromAtoms(e))
      case _ => []
  }

  function ItemAtoms(items: seq<Expr>): seq<Atom>
    requires forall y | y in items :: Shaped(y)
    decreases items
  {
    if items == [] then []
    else if |items| == 1 then Atoms(items[0])
    else Atoms(items[0]) + ([P(","), Gap] + ItemAtoms(items[1..]))
  }

  lemma {:induction false} RangeAtoms(e: Expr)
    requires Shaped(e) && e.Range?
    ensures Atoms(e)
         == [LP] + (Atoms(e.e) + (Word("BETWEEN") + (Atoms(e.lo) + (Word("AND") + (Atoms(e.hi) + [RP])))))
  {
  }

  lemma {:induction false} NullTestAtoms(e: Expr)
    requires Shaped(e) && e.NullTest?
    ensures Atoms(e) == [LP] + (Atoms(e.e) + NullAtoms(e.negate))
  {
  }

  lemma {:induction false} OneOfAtoms(e: Expr)
    requires Shaped(e) && e.OneOf?
    ensures Atoms(e) == [LP] + (Atoms(e.e) + (Word("IN") + ([LP] + (ItemAtoms(e.items) + ([RP] + [RP])))))
  {
  }

  lemma {:induction false} ListAtoms(items: seq<Expr>)
    requires items != [] && forall y | y in items :: Shaped(y)
    ensures ItemAtoms(items)
         == if |items| == 1 then Atoms(items[0]) else Atoms(items[0]) + ([P(","), Gap] + ItemAtoms(items[1..]))
  {
  }

  // ---- lexing undoes spelling ---------------------------------------------------------

  predicate IsPunctText(s: string) { s == "(" || s == ")" || s == "," || s == "." }

  predicate ValidAtom(a: Atom) {
    match a
    case Gap => true
    case W(w) => IsWord(w)
    case D(_) => true
    case Q(s) => '\'' !in s
    case P(s) => IsPunctText(s) || s == "||" || IsCmpOp(s)
  }

  predicate MayFollow(a: Atom, c: char) {
    match a
    case Gap => true
    case W(_) => !IsIdentCont(c)
    case D(_) => !IsDigit(c)
    case Q(_) => c != '\''
    case P(s) => IsPunctText(s) || !IsOpChar(c)
  }

  function FirstChar(a: Atom): char
    requires ValidAtom(a)
  {
    match a
    case Gap => ' '
    case W(w) => w[0]
    case D(_) => '$'
    case Q(_) => '\''
    case P(s) => s[0]
  }

  /** Valid atoms, none of which runs into the next. */
  ghost predicate WellSpaced(p: seq<Atom>) {
    && (forall i | 0 <= i < |p| :: ValidAtom(p[i]))
    && forall i | 0 <= i < |p| - 1 :: MayFollow(p[i], FirstChar(p[i + 1]))
  }

  lemma {:induction false} OpLenOf(s: string, rest: string)
    requires (forall i | 0 <= i < |s| :: IsOpChar(s[i])) && (rest == "" || !IsOpChar(rest[0]))
    ensures OpLen(s + rest) == |s|
  {
    if s == "" {
      assert s + rest == rest;
    } else {
      assert (s + rest)[1..] == s[1..] + rest;
      OpLenOf(s[1..], rest);
    }
  }

  lemma {:induction false} QuoteBodyOf(s: string, rest: string)
    requires '\'' !in s && (rest == "" || rest[0] != '\'')
    ensures QuoteBody(s + ("'" + rest)) == Some((s, |s| + 1))
  {
    var t := s + ("'" + rest);
    if s == "" {
      assert t == "'" + rest;
    } else {
      assert t[1..] == s[1..] + ("'" + rest);
      QuoteBodyOf(s[1..], rest);
      assert [s[0]] + s[1..] == s;
    }
  }

  lemma {:induction false} StepWordAtom(w: string, rest: string)
    requires IsWord(w) && (rest == "" || !IsIdentCont(rest[0]))
    ensures SqlStep(w + rest) == Some(([WordTok(w)], |w|))
  {
    hide WordTok, QuoteBody;
    IdentLenOf(w, rest);
    assert (w + rest)[..|w|] == w;
  }

  lemma {:induction false} StepDollarAtom(n: nat, rest: string)
    requires rest == "" || !IsDigit(rest[0])
    ensures SqlStep("$" + Decimal(n) + rest) == Some(([Dollar(n)], 1 + |Decimal(n)|))
  {
    hide WordTok, QuoteBody, Decimal, NumberValue;
    var d := Decimal(n);
    var s := "$" + d + rest;
    assert s[1..] == d + rest;
    DigitsLenAll(d, rest);
    assert s[1..][..|d|] == d;
  }

  lemma {:induction false} StepQuoteAtom(v: string, rest: string)
    requires '\'' !in v && (rest == "" || rest[0] != '\'')
    ensures SqlStep("'" + v + "'" + rest) == Some(([Lit(v)], |v| + 2))
  {
    hide WordTok;
    var s := "'" + v + "'" + rest;
    assert s[1..] == v + ("'" + rest);
    QuoteBodyOf(v, rest);
  }

  lemma {:induction false} StepSymbolAtom(op: string, rest: string)
    requires IsPunctText(op) || op == "||" || IsCmpOp(op)
    requires IsPunctText(op) || rest == "" || !IsOpChar(rest[0])
    ensures SqlStep(op + rest) == Some(([Sym(op)], |op|))
  {
    hide WordTok, QuoteBody;
    var s := op + rest;
    assert s[0] == op[0];
    if IsPunctText(op) {
      assert [s[0]] == op;
    } else {
      OpLenOf(op, rest);
      assert s[..|op|] == op;
    }
  }

  lemma {:induction false} StepReadsAtom(a: Atom, rest: string)
    requires ValidAtom(a) && (rest == "" || MayFollow(a, rest[0]))
    ensures SpellAtom(a) != "" && SqlStep(SpellAtom(a) + rest) == Some((TokOf(a), |SpellAtom(a)|))
  {
    match a {
      case Gap =>
      case W(w) => hide SqlStep, WordTok; StepWordAtom(w, rest);
      case D(n) => hide SqlStep, Decimal; StepDollarAtom(n, rest);
      case Q(v) => hide SqlStep; StepQuoteAtom(v, rest);
      case P(op) => hide SqlStep; StepSymbolAtom(op, rest);
    }
  }

  lemma {:induction false} SpellStarts(p: seq<Atom>)
    requires WellSpaced(p) && p != []
    ensures Spell(p) != "" && Spell(p)[0] == FirstChar(p[0])
  {
  }

  lemma {:induction false} LexUndoesSpell(p: seq<Atom>)
    requires WellSpaced(p)
    ensures SqlLex(Spell(p)) == Some(Toks(p))
  {
    hide SqlStep, ValidAtom, MayFollow, SpellAtom, TokOf;
    if p != [] {
      var rest := Spell(p[1..]);
      if p[1..] != [] {
        SpellStarts(p[1..]);
        assert MayFollow(p[0], FirstChar(p[0 + 1]));
      }
      StepReadsAtom(p[0], rest);
      assert (SpellAtom(p[0]) + rest)[|SpellAtom(p[0])|..] == rest;
      LexUndoesSpell(p[1..]);
    }
  }

  lemma {:induction false} SpellCat(a: seq<Atom>, b: seq<Atom>)
    ensures Spell(a + b) == Spell(a) + Spell(b)
    ensures Toks(a + b) == Toks(a) + Toks(b)
  {
    hide SpellAtom, TokOf;
    if a == [] {
      assert a + b == b;
    } else {
      assert (a + b)[0] == a[0] && (a + b)[1..] == a[1..] + b;
      SpellCat(a[1..], b);
    }
  }

  // ---- expressions are well spaced ----------------------------------------------------

  /** Blanks and closing punctuation may follow every atom; anything may follow
      a blank, a parenthesis or a dot. */
  ghost predicate Joins(a: seq<Atom>, b: seq<Atom>) {
    a == [] || b == [] ||
    b[0] in {Gap, RP, P(","), DT} || a[|a| - 1] in {Gap, LP, DT}
  }

  lemma {:induction false} SpacedCat(a: seq<Atom>, b: seq<Atom>)
    requires WellSpaced(a) && WellSpaced(b) && Joins(a, b)
    ensures WellSpaced(a + b)
  {
    var p := a + b;
    forall i | 0 <= i < |p| - 1 ensures MayFollow(p[i], FirstChar(p[i + 1])) {
      if i + 1 < |a| {
        assert MayFollow(a[i], FirstChar(a[i + 1]));
      } else if i >= |a| {
        assert p[i] == b[i - |a|] && p[i + 1] == b[i - |a| + 1];
        assert MayFollow(b[i - |a|], FirstChar(b[i - |a| + 1]));
      } else {
        assert p[i] == a[|a| - 1] && p[i + 1] == b[0];
        assert ValidAtom(a[|a| - 1]) && ValidAtom(b[0]);
      }
    }
  }

  lemma {:induction false} BlockSpaced(w: string)
    requires IsWord(w)
    ensures WellSpaced(Word(w)) && WellSpaced([Gap, W(w)]) && WellSpaced([W(w), Gap]) && WellSpaced([LP, W(w), Gap])
    ensures WellSpaced([W(w)]) && WellSpaced([W(w), RP]) && WellSpaced([LP, W(w), RP])
  {
  }

  lemma {:induction false} OperSpaced(op: string)
    requires op == "||" || IsCmpOp(op)
    ensures WellSpaced(Oper(op))
  {
  }

  lemma {:induction false} PunctSpaced()
    ensures WellSpaced([LP]) && WellSpaced([RP]) && WellSpaced([P(","), Gap])
    ensures WellSpaced([LP, Q("%")]) && WellSpaced([Q("%"), RP])
  {
  }

  lemma {:induction false} QualifiedSpaced(e: Expr)
    requires IsQualified(e)
    ensures WellSpaced(QualifiedAtoms(e))
  {
  }

  lemma {:induction false} MiddleSpaced(e: Expr)
    requires IsInfix(e) && Shaped(e)
    ensures WellSpaced(Middle(e)) && Middle(e) != [] && Middle(e)[0] == Gap && Middle(e)[|Middle(e)| - 1] == Gap
    ensures WellSpaced(Closing(e)) && Closing(e) != [] && Closing(e)[0] in {Gap, RP}
  {
    hide WellSpaced;
    PunctSpaced();
    BlockSpaced("OR");
    BlockSpaced("AND");
    if e.Cmp? {
      OperSpaced(e.op);
    } else if e.Like? {
      BlockSpaced("NOT");
      BlockSpaced("ILIKE");
      OperSpaced("||");
      var not := if e.negate then [Gap, W("NOT")] else [];
      assert WellSpaced(not) by { NothingSpaced(); }
      SpacedCat([LP, Q("%")], Oper("||"));
      SpacedCat(Word("ILIKE"), [LP, Q("%")] + Oper("||"));
      SpacedCat(not, Word("ILIKE") + ([LP, Q("%")] + Oper("||")));
      SpacedCat([Q("%"), RP], [RP]);
      SpacedCat(Oper("||"), [Q("%"), RP] + [RP]);
    }
  }

  lemma {:induction false} NothingSpaced()
    ensures WellSpaced([])
  {
  }

  /** First and last atoms of an expression: nothing that would run into its
      neighbours. */
  ghost predicate Edges(p: seq<Atom>) {
    p != [] && (p[0] == LP || p[0].W? || p[0].D?) && WellSpaced(p)
  }

  /** An operand between an opening or blank and what follows it. */
  lemma {:induction false} OperandJoins(before: seq<Atom>, p: seq<Atom>, after: seq<Atom>)
    requires WellSpaced(before) && Edges(p) && WellSpaced(after)
    requires before != [] && before[|before| - 1] in {Gap, LP, DT}
    requires after != [] && after[0] in {Gap, RP, P(","), DT}
    ensures WellSpaced(before + (p + after))
  {
    hide WellSpaced;
    SpacedCat(p, after);
    SpacedCat(before, p + after);
  }

  lemma {:induction false} AtomsSpaced(e: Expr)
    requires Shaped(e)
    ensures Edges(Atoms(e))
    decreases e
  {
    hide WellSpaced, Middle, Closing, Word, QualifiedAtoms, NullAtoms;
    PunctSpaced();
    if IsInfix(e) {
      InfixSpaced(e);
    } else {
      match e {
        case Col(c) => BlockSpaced(c);
        case Arg(n) => ArgSpaced(n);
        case False => BlockSpaced("false");
        case OneOf(x, items) => OneOfSpaced(e);
        case Range(x, lo, hi) => RangeSpaced(e);
        case NullTest(x, negate) => NullSpaced(e);
        case Subquery(sel, from, cond) => SubquerySpaced(e);
      }
    }
  }

  lemma {:induction false} ArgSpaced(n: nat)
    ensures WellSpaced([D(n)])
  {
  }

  lemma {:induction false} InfixSpaced(e: Expr)
    requires Shaped(e) && IsInfix(e)
    ensures Edges(Atoms(e))
    decreases e, 0
  {
    hide WellSpaced, Middle, Closing;
    PunctSpaced();
    MiddleSpaced(e);
    AtomsSpaced(LeftOf(e));
    AtomsSpaced(RightOf(e));
    var tail := Middle(e) + (Atoms(RightOf(e)) + Closing(e));
    OperandJoins(Middle(e), Atoms(RightOf(e)), Closing(e));
    OperandJoins([LP], Atoms(LeftOf(e)), tail);
  }

  lemma {:induction false} RangeSpaced(e: Expr)
    requires Shaped(e) && e.Range?
    ensures Edges(Atoms(e))
    decreases e, 0
  {
    hide WellSpaced;
    PunctSpaced();
    BlockSpaced("BETWEEN");
    BlockSpaced("AND");
    AtomsSpaced(e.e);
    AtomsSpaced(e.lo);
    AtomsSpaced(e.hi);
    var c := Word("AND") + (Atoms(e.hi) + [RP]);
    OperandJoins(Word("AND"), Atoms(e.hi), [RP]);
    OperandJoins(Word("BETWEEN"), Atoms(e.lo), c);
    OperandJoins([LP], Atoms(e.e), Word("BETWEEN") + (Atoms(e.lo) + c));
  }

  lemma {:induction false} NullSpaced(e: Expr)
    requires Shaped(e) && e.NullTest?
    ensures Edges(Atoms(e))
    decreases e, 0
  {
    hide WellSpaced;
    PunctSpaced();
    BlockSpaced("IS");
    BlockSpaced("NOT");
    BlockSpaced("NULL");
    NothingSpaced();
    var not := if e.negate then [W("NOT"), Gap] else [];
    SpacedCat(not, [W("NULL"), RP]);
    SpacedCat(Word("IS"), not + [W("NULL"), RP]);
    AtomsSpaced(e.e);
    OperandJoins([LP], Atoms(e.e), NullAtoms(e.negate));
  }

  lemma {:induction false} OneOfSpaced(e: Expr)
    requires Shaped(e) && e.OneOf?
    ensures Edges(Atoms(e))
    decreases e, 0
  {
    hide WellSpaced, ItemAtoms;
    PunctSpaced();
    BlockSpaced("IN");
    AtomsSpaced(e.e);
    ItemsSpaced(e.items);
    SpacedCat([RP], [RP]);
    var c := [LP] + (ItemAtoms(e.items) + ([RP] + [RP]));
    OperandJoins([LP], ItemAtoms(e.items), [RP] + [RP]);
    SpacedCat(Word("IN"), c);
    OperandJoins([LP], Atoms(e.e), Word("IN") + c);
  }

  lemma {:induction false} ItemsSpaced(items: seq<Expr>)
    requires items != [] && forall y | y in items :: Shaped(y)
    ensures Edges(ItemAtoms(items))
    decreases items
  {
    hide WellSpaced, Atoms, Shaped;
    PunctSpaced();
    AtomsSpaced(items[0]);
    if |items| > 1 {
      ItemsSpaced(items[1..]);
      SpacedCat([P(","), Gap], ItemAtoms(items[1..]));
      SpacedCat(Atoms(items[0]), [P(","), Gap] + ItemAtoms(items[1..]));
    }
  }

  lemma {:induction false} SubquerySpaced(e: Expr)
    requires Shaped(e) && e.Subquery?
    ensures Edges(Atoms(e))
    decreases e, 0
  {
    hide WellSpaced;
    PunctSpaced();
    BlockSpaced("SELECT");
    BlockSpaced("FROM");
    BlockSpaced("WHERE");
    BlockSpaced(e.from);
    OperSpaced("=");
    QualifiedSpaced(e.sel);
    QualifiedSpaced(e.cond.l);
    QualifiedSpaced(e.cond.r);
    var c := Oper("=") + (QualifiedAtoms(e.cond.r) + [RP]);
    OperandJoins(Oper("="), QualifiedAtoms(e.cond.r), [RP]);
    var b := Word("WHERE") + (QualifiedAtoms(e.cond.l) + c);
    OperandJoins(Word("WHERE"), QualifiedAtoms(e.cond.l), c);
    var a := Word("FROM") + ([W(e.from)] + b);
    OperandJoins(Word("FROM"), [W(e.from)], b);
    OperandJoins([LP, W("SELECT"), Gap], QualifiedAtoms(e.sel), a);
  }

  // ---- the tokens of an expression ---------------------------------------------------

  const LPT := Sym("(")
  const RPT := Sym(")")

  function Tokens(e: Expr): seq<Tok>
    requires Shaped(e)
  {
    Toks(Atoms(e))
  }

  function ItemTokens(items: seq<Expr>): seq<Tok>
    requires forall y | y in items :: Shaped(y)
  {
    Toks(ItemAtoms(items))
  }

  lemma {:induction false} Keyword(w: string, k: string)
    requires |w| == |k| && (forall i | 0 <= i < |w| :: ToLowerChar(w[i]) == k[i]) && k in SQL_KEYWORDS
    ensures WordTok(w) == Kw(k) && Toks(Word(w)) == [Kw(k)]
    ensures Toks([Gap, W(w)]) == [Kw(k)] && Toks([W(w), Gap]) == [Kw(k)] && Toks([LP, W(w), Gap]) == [LPT, Kw(k)]
    ensures Toks([W(w), RP]) == [Kw(k), RPT] && Toks([LP, W(w), RP]) == [LPT, Kw(k), RPT]
  {
    hide Toks, ToLower;
    LowerIs(w, k);
    BlockToks(Gap, W(w), Gap);
    BlockToks(W(w), Gap, Gap);
    BlockToks(W(w), RP, Gap);
    BlockToks(LP, W(w), Gap);
    BlockToks(LP, W(w), RP);
  }

  lemma {:induction false} Operator(op: string)
    ensures Toks(Oper(op)) == [Sym(op)]
  {
    hide Toks;
    BlockToks(Gap, P(op), Gap);
  }

  lemma {:induction false} Parens()
    ensures Toks([LP]) == [LPT] && Toks([RP]) == [RPT] && Toks([P(","), Gap]) == [Sym(",")]
    ensures Toks([LP, Q("%")]) == [LPT] + [Lit("%")] && Toks([Q("%"), RP]) == [Lit("%")] + [RPT]
  {
    hide Toks;
    BlockToks(LP, Q("%"), RP);
    BlockToks(RP, RP, RP);
    BlockToks(P(","), Gap, Gap);
    BlockToks(Q("%"), RP, RP);
  }

  lemma {:induction false} NameTok(s: string)
    requires SqlName(s)
    ensures WordTok(s) == Id(s)
  {
  }

  lemma {:induction false} BlockToks(a: Atom, b: Atom, c: Atom)
    ensures Toks([a]) == TokOf(a) && Toks([a, b]) == TokOf(a) + TokOf(b)
    ensures Toks([a, b, c]) == TokOf(a) + TokOf(b) + TokOf(c)
  {
    hide Toks, TokOf;
    OneTok(a);
    OneTok(b);
    OneTok(c);
    SpellCat([a], [b]);
    SpellCat([a] + [b], [c]);
    assert [a] + [b] == [a, b] && [a, b] + [c] == [a, b, c];
  }

  lemma {:induction false} OneTok(a: Atom)
    ensures Toks([a]) == TokOf(a)
  {
    hide TokOf;
    assert [a][1..] == [];
    assert TokOf(a) + [] == TokOf(a);
  }

  /** The tokens of an infix expression around its operands. */
  function MiddleToks(e: Expr): seq<Tok>
    requires IsInfix(e)
  {
    match e
    case Either(_, _) => [Kw("or")]
    case Both(_, _) => [Kw("and")]
    case Cmp(op, _, _) => [Sym(op)]
    case Like(negate, _, _) =>
      (if negate then [Kw("not")] else []) + ([Kw("ilike")] + ([LPT] + ([Lit("%")] + [Sym("||")])))
  }

  function ClosingToks(e: Expr): seq<Tok> {
    if e.Like? then [Sym("||")] + ([Lit("%")] + ([RPT] + [RPT])) else [RPT]
  }

  lemma {:induction false} LikeToks(negate: bool)
    ensures Toks(LikeAtoms(negate))
         == (if negate then [Kw("not")] else []) + ([Kw("ilike")] + ([LPT] + ([Lit("%")] + [Sym("||")])))
  {
    hide Word, Oper, Toks;
    Parens();
    Keyword("NOT", "not");
    Keyword("ILIKE", "ilike");
    Operator("||");
    NothingToks();
    SpellCat([LP, Q("%")], Oper("||"));
    SpellCat(Word("ILIKE"), [LP, Q("%")] + Oper("||"));
    SpellCat(if negate then [Gap, W("NOT")] else [], Word("ILIKE") + ([LP, Q("%")] + Oper("||")));
    assert [LPT] + [Lit("%")] + [Sym("||")] == [LPT] + ([Lit("%")] + [Sym("||")]);
  }

  lemma {:induction false} LikeClosingToks()
    ensures Toks(Oper("||") + ([Q("%"), RP] + [RP])) == [Sym("||")] + ([Lit("%")] + ([RPT] + [RPT]))
  {
    hide Word, Oper, Toks;
    Parens();
    Operator("||");
    SpellCat([Q("%"), RP], [RP]);
    SpellCat(Oper("||"), [Q("%"), RP] + [RP]);
  }

  lemma {:induction false} MiddleToksIs(e: Expr)
    requires IsInfix(e) && Shaped(e)
    ensures Toks(Middle(e)) == MiddleToks(e) && Toks(Closing(e)) == ClosingToks(e)
  {
    hide Word, Oper, Toks;
    Parens();
    match e {
      case Either(_, _) => Keyword("OR", "or");
      case Both(_, _) => Keyword("AND", "and");
      case Cmp(op, _, _) => Operator(op);
      case Like(negate, _, _) => hide LikeAtoms; LikeToks(negate); LikeClosingToks();
    }
  }

  lemma {:induction false} NothingToks()
    ensures Toks([]) == []
  {
  }

  lemma {:induction false} InfixToks(e: Expr)
    requires Shaped(e) && IsInfix(e)
    ensures Tokens(e)
         == [LPT] + (Tokens(LeftOf(e)) + (MiddleToks(e) + (Tokens(RightOf(e)) + ClosingToks(e))))
  {
    hide Middle, Closing, MiddleToks, ClosingToks, Toks;
    Parens();
    MiddleToksIs(e);
    var a, b := Atoms(LeftOf(e)), Atoms(RightOf(e));
    SpellCat(b, Closing(e));
    SpellCat(Middle(e), b + Closing(e));
    SpellCat(a, Middle(e) + (b + Closing(e)));
    SpellCat([LP], a + (Middle(e) + (b + Closing(e))));
  }

  lemma {:induction false} RangeToks(e: Expr)
    requires Shaped(e) && e.Range?
    ensures Tokens(e)
         == [LPT] + (Tokens(e.e) + ([Kw("between")] + (Tokens(e.lo) + ([Kw("and")] + (Tokens(e.hi) + [RPT])))))
  {
    hide Word, Oper, Toks;
    Parens();
    Keyword("BETWEEN", "between");
    Keyword("AND", "and");
    var a, b, c := Atoms(e.e), Atoms(e.lo), Atoms(e.hi) + [RP];
    SpellCat(Atoms(e.hi), [RP]);
    SpellCat(Word("AND"), c);
    SpellCat(b, Word("AND") + c);
    SpellCat(Word("BETWEEN"), b + (Word("AND") + c));
    SpellCat(a, Word("BETWEEN") + (b + (Word("AND") + c)));
    SpellCat([LP], a + (Word("BETWEEN") + (b + (Word("AND") + c))));
  }

  function NullTestToks(negate: bool): seq<Tok> {
    if negate then [Kw("is")] + ([Kw("not")] + ([Kw("null")] + [RPT])) else [Kw("is")] + ([Kw("null")] + [RPT])
  }

  lemma {:induction false} NullToks(e: Expr)
    requires Shaped(e) && e.NullTest?
    ensures Tokens(e) == [LPT] + (Tokens(e.e) + NullTestToks(e.negate))
  {
    hide Word, Oper, Toks;
    Parens();
    NothingToks();
    Keyword("IS", "is");
    Keyword("NOT", "not");
    Keyword("NULL", "null");
    var not := if e.negate then [W("NOT"), Gap] else [];
    SpellCat(not, [W("NULL"), RP]);
    SpellCat(Word("IS"), not + [W("NULL"), RP]);
    assert Toks(NullAtoms(e.negate)) == NullTestToks(e.negate);
    SpellCat(Atoms(e.e), NullAtoms(e.negate));
    SpellCat([LP], Atoms(e.e) + NullAtoms(e.negate));
  }

  lemma {:induction false} OneOfToks(e: Expr)
    requires Shaped(e) && e.OneOf?
    ensures Tokens(e)
         == [LPT] + (Tokens(e.e) + ([Kw("in")] + ([LPT] + (ItemTokens(e.items) + ([RPT] + [RPT])))))
  {
    hide Word, Oper, Toks;
    Parens();
    Keyword("IN", "in");
    var a, b := Atoms(e.e), ItemAtoms(e.items);
    SpellCat([RP], [RP]);
    SpellCat(b, [RP] + [RP]);
    SpellCat([LP], b + ([RP] + [RP]));
    SpellCat(Word("IN"), [LP] + (b + ([RP] + [RP])));
    SpellCat(a, Word("IN") + ([LP] + (b + ([RP] + [RP]))));
    SpellCat([LP], a + (Word("IN") + ([LP] + (b + ([RP] + [RP])))));
  }

  lemma {:induction false} ItemsToks(items: seq<Expr>)
    requires items != [] && forall y | y in items :: Shaped(y)
    ensures ItemTokens(items)
         == if |items| == 1 then Tokens(items[0]) else Tokens(items[0]) + ([Sym(",")] + ItemTokens(items[1..]))
  {
    hide Toks, Atoms;
    if |items| > 1 {
      Parens();
      SpellCat([P(","), Gap], ItemAtoms(items[1..]));
      SpellCat(Atoms(items[0]), [P(","), Gap] + ItemAtoms(items[1..]));
    }
  }

  function QualifiedToks(e: Expr): seq<Tok>
    requires e.QCol?
  {
    [Id(e.table)] + ([Sym(".")] + [Id(e.name)])
  }

  lemma {:induction false} QualifiedToksIs(e: Expr)
    requires IsQualified(e)
    ensures Toks(QualifiedAtoms(e)) == QualifiedToks(e)
  {
    hide WordTok, Toks;
    NameTok(e.table);
    NameTok(e.name);
    BlockToks(W(e.table), DT, W(e.name));
  }

  function CondToks(e: Expr): seq<Tok>
    requires e.Subquery? && e.cond.Cmp? && e.cond.l.QCol? && e.cond.r.QCol?
  {
    QualifiedToks(e.cond.l) + ([Sym("=")] + (QualifiedToks(e.cond.r) + [RPT]))
  }

  function FromToks(e: Expr): seq<Tok>
    requires e.Subquery? && e.cond.Cmp? && e.cond.l.QCol? && e.cond.r.QCol?
  {
    [Kw("from")] + ([Id(e.from)] + ([Kw("where")] + CondToks(e)))
  }

  lemma {:induction false} CondToksIs(e: Expr)
    requires Shaped(e) && e.Subquery?
    ensures Toks(CondAtoms(e)) == CondToks(e)
  {
    hide Word, Oper, Toks, QualifiedAtoms, QualifiedToks;
    Parens();
    QualifiedToksIs(e.cond.l);
    QualifiedToksIs(e.cond.r);
    Operator("=");
    SpellCat(QualifiedAtoms(e.cond.r), [RP]);
    SpellCat(Oper("="), QualifiedAtoms(e.cond.r) + [RP]);
    SpellCat(QualifiedAtoms(e.cond.l), Oper("=") + (QualifiedAtoms(e.cond.r) + [RP]));
  }

  lemma {:induction false} FromToksIs(e: Expr)
    requires Shaped(e) && e.Subquery?
    ensures Toks(FromAtoms(e)) == FromToks(e)
  {
    hide Word, Toks, CondAtoms, CondToks, WordTok;
    NameTok(e.from);
    CondToksIs(e);
    Keyword("FROM", "from");
    Keyword("WHERE", "where");
    BlockToks(W(e.from), RP, RP);
    SpellCat(Word("WHERE"), CondAtoms(e));
    SpellCat([W(e.from)], Word("WHERE") + CondAtoms(e));
    SpellCat(Word("FROM"), [W(e.from)] + (Word("WHERE") + CondAtoms(e)));
  }

  lemma {:induction false} SubqueryToks(e: Expr)
    requires Shaped(e) && e.Subquery?
    ensures Tokens(e) == [LPT, Kw("select")] + (QualifiedToks(e.sel) + FromToks(e))
  {
    hide Toks, QualifiedAtoms, QualifiedToks, FromAtoms, FromToks;
    QualifiedToksIs(e.sel);
    FromToksIs(e);
    Keyword("SELECT", "select");
    SpellCat(QualifiedAtoms(e.sel), FromAtoms(e));
    SpellCat([LP, W("SELECT"), Gap], QualifiedAtoms(e.sel) + FromAtoms(e));
  }
}
