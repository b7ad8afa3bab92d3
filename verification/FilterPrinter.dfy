/** Printing a filter with as few parentheses as the grammar allows, and the
    proof that lexing and parsing undo it for every choice of white space. */
module FilterPrinter {
  import opened Text
  import opened FilterAst
  import opened FilterLexer
  import opened FilterParser

  /** A token without its position. */
  datatype Lexeme = Lexeme(kind: Kind, val: string)

  const LPAREN := Lexeme(LParen, "(")
  const RPAREN := Lexeme(RParen, ")")
  const COMMA := Lexeme(Comma, ",")
  const DOT := Lexeme(Dot, ".")
  const ANDAND := Lexeme(AndAnd, "&&")
  const OROR := Lexeme(OrOr, "||")
  const IN_KW := Lexeme(InKw, "IN")
  const BETWEEN_KW := Lexeme(BetweenKw, "BETWEEN")
  const AND_WORD := Lexeme(Name, "AND")
  const IS_KW := Lexeme(IsKw, "IS")
  const NOT_KW := Lexeme(NotKw, "NOT")
  const NULL_KW := Lexeme(Null, "null")

  predicate IsLeaf(n: Node) {
    n.Ident? || n.MagicVar? || n.StringLit? || n.IntLit? || n.FloatLit? || n.BoolLit? || n.NullLit?
  }

  function FloatText(mant: nat, scale: nat): string {
    var digits := Padded(mant, scale + 1);
    digits[..|digits| - scale] + "." + digits[|digits| - scale..]
  }

  function PrintPath(path: seq<string>): (p: seq<Lexeme>)
    requires path != []
    ensures p != [] && p[0].kind == Name
  {
    if |path| == 1 then [Lexeme(Name, path[0])]
    else [Lexeme(Name, path[0]), DOT] + PrintPath(path[1..])
  }

  function PrintLeaf(n: Node): (p: seq<Lexeme>)
    requires IsLeaf(n)
    ensures p != [] && p[0].kind != RParen
  {
    match n
    case Ident(name, path) => PrintPath(if path == "" then [name] else Split(path, '.'))
    case MagicVar(name) => [Lexeme(Magic, name)]
    case StringLit(s) => [Lexeme(Str, s)]
    case IntLit(i) => [Lexeme(Int, if i >= 0 then Decimal(i) else "")]
    case FloatLit(m, k) => [Lexeme(Float, FloatText(m, k))]
    case BoolLit(b) => [Lexeme(Bool, if b then "true" else "false")]
    case NullLit => [NULL_KW]
  }

  /** How tightly a node binds: `||`, `&&`, comparisons, operands. */
  function Level(n: Node): nat {
    match n
    case Or(_, _) => 1
    case And(_, _) => 2
    case _ => if IsLeaf(n) then 4 else 3
  }

  /** `n` where the grammar expects something binding at least at `level`. */
  function Print(n: Node, level: nat): (p: seq<Lexeme>)
    ensures level == 4 ==> p != [] && p[0].kind != RParen
    decreases n, 1
  {
    if Level(n) < level then [LPAREN] + Body(n) + [RPAREN] else Body(n)
  }

  function PrintItems(items: seq<Node>): seq<Lexeme>
    requires items != []
    decreases items
  {
    if |items| == 1 then Print(items[0], 4)
    else Print(items[0], 4) + [COMMA] + PrintItems(items[1..])
  }

  function Body(n: Node): seq<Lexeme>
    decreases n, 0
  {
    match n
    case Or(l, r) => Print(l, 1) + [OROR] + Print(r, 2)
    case And(l, r) => Print(l, 2) + [ANDAND] + Print(r, 3)
    case Compare(op, l, r) => Print(l, 4) + [Lexeme(Op, op)] + Print(r, 4)
    case In(t, items) =>
      Print(t, 4) + [IN_KW, LPAREN] + (if items == [] then [] else PrintItems(items)) + [RPAREN]
    case Between(t, lo, hi) =>
      Print(t, 4) + [BETWEEN_KW] + Print(lo, 4) + [AND_WORD] + Print(hi, 4)
    case IsNull(t) => Print(t, 4) + [IS_KW, NULL_KW]
    case IsNotNull(t) => Print(t, 4) + [IS_KW, NOT_KW, NULL_KW]
    case _ => PrintLeaf(n)
  }

  // ---- the token list a printing stands for --------------------------------

  /** From index `i`, the tokens spell `p`. */
  ghost predicate Shows(toks: seq<Token>, i: nat, p: seq<Lexeme>) {
    && i + |p| <= |toks|
    && forall y | i <= y < i + |p| :: toks[y].kind == p[y - i].kind && toks[y].val == p[y - i].val
  }

  lemma {:induction false} ShowsFits(toks: seq<Token>, i: nat, p: seq<Lexeme>)
    requires Shows(toks, i, p)
    ensures i + |p| <= |toks|
  {
  }

  lemma {:induction false} ShowsSplit(toks: seq<Token>, i: nat, a: seq<Lexeme>, b: seq<Lexeme>)
    requires Shows(toks, i, a + b)
    ensures Shows(toks, i, a) && Shows(toks, i + |a|, b)
  {
    forall y | i <= y < i + |a| ensures toks[y].kind == a[y - i].kind && toks[y].val == a[y - i].val {
      assert (a + b)[y - i] == a[y - i];
    }
    var k := i + |a|;
    forall y | k <= y < k + |b| ensures toks[y].kind == b[y - k].kind && toks[y].val == b[y - k].val {
      assert (a + b)[y - i] == b[y - k];
    }
  }

  lemma {:induction false} ShowsCons(toks: seq<Token>, i: nat, x: Lexeme, rest: seq<Lexeme>)
    requires Shows(toks, i, [x] + rest)
    ensures i < |toks| && toks[i].kind == x.kind && toks[i].val == x.val
    ensures Shows(toks, i + 1, rest)
  {
    ShowsSplit(toks, i, [x], rest);
    assert toks[i].kind == [x][i - i].kind;
  }

  /** `a` and then `x`, as in an operand and the operator after it. */
  lemma {:induction false} ShowsThen(toks: seq<Token>, i: nat, a: seq<Lexeme>, x: Lexeme, rest: seq<Lexeme>)
    requires Shows(toks, i, a + ([x] + rest))
    ensures Shows(toks, i, a)
    ensures i + |a| < |toks| && toks[i + |a|].kind == x.kind && toks[i + |a|].val == x.val
    ensures Shows(toks, i + |a| + 1, rest)
  {
    ShowsSplit(toks, i, a, [x] + rest);
    ShowsCons(toks, i + |a|, x, rest);
  }

  // ---- parsing one printing ---------------------------------------------------

  /** Token kinds that may follow a node printed at `level` without being read
      as part of it. */
  ghost predicate Ends(level: nat, k: Kind) {
    && k != Dot
    && (level <= 3 ==> k != Op && k != BetweenKw && k != InKw && k != IsKw)
    && (level <= 1 ==> k != AndAnd)
  }

  lemma EndsTighter(level: nat, tight: nat, k: Kind)
    requires level <= tight && Ends(level, k)
    ensures Ends(tight, k)
  {
  }

  /** The descent entered at `level` reads `n` from `i` up to `j`; the loops of
      `&&` and `||` are left where they stand. */
  ghost predicate Parses(n: Node, level: nat, toks: seq<Token>, i: nat, j: nat)
    requires i <= j <= |toks|
  {
    if level <= 1 then OrFrom(toks, i) == OrTail(toks, j, n)
    else if level == 2 then AndFrom(toks, i) == AndTail(toks, j, n)
    else if level == 3 then CompareFrom(toks, i) == Ok((n, j))
    else PrimaryFrom(toks, i) == Ok((n, j))
  }

  lemma {:induction false} Loosen(n: Node, tight: nat, level: nat, toks: seq<Token>, i: nat, j: nat)
    requires 1 <= level <= tight <= 4 && i <= j <= |toks|
    requires Parses(n, tight, toks, i, j) && Ends(level, PeekAt(toks, j).kind)
    ensures Parses(n, level, toks, i, j)
    decreases tight - level
  {
    if level < tight {
      Loosen(n, tight, level + 1, toks, i, j);
    }
  }

  lemma {:induction false} SegmentsOfPath(path: seq<string>, toks: seq<Token>, i: nat, before: seq<string>)
    requires path != [] && before != []
    requires Shows(toks, i, [DOT] + PrintPath(path))
    requires PeekAt(toks, i + 1 + |PrintPath(path)|).kind != Dot
    ensures Segments(toks, i, before) == Ok((IdentOf(before + path), i + 1 + |PrintPath(path)|))
    decreases |path|
  {
    hide Segments, Shows, IdentOf;
    ShowsCons(toks, i, DOT, PrintPath(path));
    if |path| == 1 {
      ShowsCons(toks, i + 1, Lexeme(Name, path[0]), []);
      assert before + path == before + [path[0]];
      NoMoreSegments(toks, i + 2, before + [path[0]]);
    } else {
      assert PrintPath(path) == [Lexeme(Name, path[0])] + ([DOT] + PrintPath(path[1..]));
      ShowsCons(toks, i + 1, Lexeme(Name, path[0]), [DOT] + PrintPath(path[1..]));
      SegmentsOfPath(path[1..], toks, i + 2, before + [path[0]]);
      assert before + [path[0]] + path[1..] == before + path;
    }
    OneSegment(toks, i, before);
  }

  lemma NoMoreSegments(toks: seq<Token>, i: nat, before: seq<string>)
    requires before != [] && i <= |toks| && PeekAt(toks, i).kind != Dot
    ensures Segments(toks, i, before) == Ok((IdentOf(before), i))
  {
  }

  lemma OneSegment(toks: seq<Token>, i: nat, before: seq<string>)
    requires before != [] && i + 2 <= |toks| && PeekAt(toks, i).kind == Dot && PeekAt(toks, i + 1).kind == Name
    ensures Segments(toks, i, before) == Segments(toks, i + 2, before + [PeekAt(toks, i + 1).val])
  {
    hide IdentOf;
  }

  lemma {:induction false} PathParses(path: seq<string>, toks: seq<Token>, i: nat)
    requires path != [] && Shows(toks, i, PrintPath(path))
    requires PeekAt(toks, i + |PrintPath(path)|).kind != Dot
    ensures PrimaryFrom(toks, i) == Ok((IdentOf(path), i + |PrintPath(path)|))
  {
    if |path| == 1 {
      ShowsCons(toks, i, Lexeme(Name, path[0]), []);
    } else {
      ShowsCons(toks, i, Lexeme(Name, path[0]), [DOT] + PrintPath(path[1..]));
      SegmentsOfPath(path[1..], toks, i + 1, [path[0]]);
      assert [path[0]] + path[1..] == path;
    }
  }

  lemma {:induction false} IdentParses(name: string, dotted: string, toks: seq<Token>, i: nat)
    requires WellFormedIdent(name, dotted)
    requires Shows(toks, i, PrintLeaf(Ident(name, dotted)))
    requires PeekAt(toks, i + |PrintLeaf(Ident(name, dotted))|).kind != Dot
    ensures PrimaryFrom(toks, i) == Ok((Ident(name, dotted), i + |PrintLeaf(Ident(name, dotted))|))
  {
    hide PrimaryFrom, Shows, PrintPath;
    if dotted == "" {
      PathParses([name], toks, i);
    } else {
      PathParses(Split(dotted, '.'), toks, i);
      JoinSplit(dotted, '.');
    }
  }

  lemma {:induction false} FloatParses(m: nat, k: nat)
    ensures FloatNode(FloatText(m, k)) == Some(FloatLit(m, k))
  {
    var digits := Padded(m, k + 1);
    var a, b := digits[..|digits| - k], digits[|digits| - k..];
    var val := FloatText(m, k);
    assert val == a + ("." + b);
    DigitsLenAll(a, "." + b);
    assert val[..|a|] == a && val[|a| + 1..] == b && val[|a|] == '.';
    assert a + b == digits;
  }

  lemma {:induction false} LeafParses(n: Node, toks: seq<Token>, i: nat)
    requires IsLeaf(n) && WellFormed(n) && Shows(toks, i, PrintLeaf(n))
    requires PeekAt(toks, i + |PrintLeaf(n)|).kind != Dot
    ensures PrimaryFrom(toks, i) == Ok((n, i + |PrintLeaf(n)|))
  {
    if n.Ident? {
      IdentParses(n.name, n.dottedPath, toks, i);
    } else {
      ShowsCons(toks, i, PrintLeaf(n)[0], []);
      if n.FloatLit? {
        FloatParses(n.mant, n.scale);
      }
    }
  }

  // One step of the descent each, about the tokens alone.

  lemma {:induction false} OrStep(toks: seq<Token>, i: nat, l: Node, j: nat, r: Node, k: nat)
    requires i <= j < k <= |toks| && toks[j].kind == OrOr
    requires OrFrom(toks, i) == OrTail(toks, j, l)
    requires AndFrom(toks, j + 1) == AndTail(toks, k, r) && Ends(1, PeekAt(toks, k).kind)
    ensures OrFrom(toks, i) == OrTail(toks, k, Or(l, r))
  {
    hide AndFrom, OrFrom;
  }

  lemma {:induction false} AndStep(toks: seq<Token>, i: nat, l: Node, j: nat, r: Node, k: nat)
    requires i <= j < k <= |toks| && toks[j].kind == AndAnd
    requires AndFrom(toks, i) == AndTail(toks, j, l)
    requires CompareFrom(toks, j + 1) == Ok((r, k))
    ensures AndFrom(toks, i) == AndTail(toks, k, And(l, r))
  {
    hide CompareFrom, AndFrom;
  }

  lemma {:induction false} CompareStep(toks: seq<Token>, i: nat, l: Node, j: nat, r: Node, k: nat)
    requires i <= j < k <= |toks| && toks[j].kind == Op
    requires PrimaryFrom(toks, i) == Ok((l, j)) && PrimaryFrom(toks, j + 1) == Ok((r, k))
    ensures CompareFrom(toks, i) == Ok((Compare(toks[j].val, l, r), k))
  {
    hide PrimaryFrom;
  }

  lemma {:induction false} BetweenStep(toks: seq<Token>, i: nat, t: Node, j: nat, lo: Node, k: nat, hi: Node, m: nat)
    requires i <= j < k < m <= |toks| && toks[j].kind == BetweenKw && IsAndWord(toks[k])
    requires PrimaryFrom(toks, i) == Ok((t, j)) && PrimaryFrom(toks, j + 1) == Ok((lo, k))
    requires PrimaryFrom(toks, k + 1) == Ok((hi, m))
    ensures CompareFrom(toks, i) == Ok((Between(t, lo, hi), m))
  {
    hide PrimaryFrom;
  }

  lemma {:induction false} InStep(toks: seq<Token>, i: nat, t: Node, j: nat, items: seq<Node>, k: nat)
    requires i <= j && j + 2 <= k < |toks|
    requires toks[j].kind == InKw && toks[j + 1].kind == LParen && toks[j + 2].kind != RParen && toks[k].kind == RParen
    requires PrimaryFrom(toks, i) == Ok((t, j)) && Items(toks, j + 2, []) == Ok((items, k))
    ensures CompareFrom(toks, i) == Ok((In(t, items), k + 1))
  {
    hide PrimaryFrom, Items;
  }

  lemma {:induction false} NullStep(toks: seq<Token>, i: nat, t: Node, j: nat, negate: bool)
    requires i <= j && j + 1 < |toks| && toks[j].kind == IsKw
    requires negate ==> j + 2 < |toks| && toks[j + 1].kind == NotKw && toks[j + 2].kind == Null
    requires !negate ==> toks[j + 1].kind == Null
    requires PrimaryFrom(toks, i) == Ok((t, j))
    ensures CompareFrom(toks, i) == Ok(if negate then (IsNotNull(t), j + 3) else (IsNull(t), j + 2))
  {
    hide PrimaryFrom;
  }

  lemma {:induction false} ItemStep(toks: seq<Token>, i: nat, x: Node, j: nat, before: seq<Node>)
    requires i <= j < |toks| && PrimaryFrom(toks, i) == Ok((x, j))
    ensures toks[j].kind == Comma ==> Items(toks, i, before) == Items(toks, j + 1, before + [x])
    ensures toks[j].kind != Comma ==> Items(toks, i, before) == Ok((before + [x], j))
  {
    hide PrimaryFrom;
  }

  lemma {:induction false} ParenStep(toks: seq<Token>, i: nat, n: Node, j: nat)
    requires i < j < |toks| && toks[i].kind == LParen && toks[j].kind == RParen
    requires Parses(n, 1, toks, i + 1, j)
    ensures Parses(n, 4, toks, i, j + 1)
  {
    hide OrFrom;
  }

  /** What a well-formed node says about its parts. */
  lemma {:induction false} WellFormedParts(n: Node)
    requires WellFormed(n)
    ensures n.Or? || n.And? || n.Compare? ==> WellFormed(n.l) && WellFormed(n.r)
    ensures n.In? ==> n.items != [] && WellFormed(n.target) && forall x | x in n.items :: WellFormed(x)
    ensures n.Between? ==> WellFormed(n.target) && WellFormed(n.lo) && WellFormed(n.hi)
    ensures n.IsNull? || n.IsNotNull? ==> WellFormed(n.target)
  {
  }

  // The printer's equations, as the lists the step lemmas walk.

  lemma {:induction false} PrintIs(n: Node, level: nat)
    ensures Print(n, level) == if Level(n) < level then [LPAREN] + (Body(n) + ([RPAREN] + [])) else Body(n)
  {
  }

  lemma {:induction false} LeafIs(n: Node)
    requires IsLeaf(n)
    ensures Body(n) == PrintLeaf(n)
  {
  }

  lemma {:induction false} ConnectiveIs(n: Node)
    ensures n.Or? ==> Body(n) == Print(n.l, 1) + ([OROR] + Print(n.r, 2))
    ensures n.And? ==> Body(n) == Print(n.l, 2) + ([ANDAND] + Print(n.r, 3))
  {
  }

  lemma {:induction false} ComparisonIs(n: Node)
    ensures n.Compare? ==> Body(n) == Print(n.l, 4) + ([Lexeme(Op, n.op)] + Print(n.r, 4))
    ensures n.IsNull? ==> Body(n) == Print(n.target, 4) + ([IS_KW] + ([NULL_KW] + []))
    ensures n.IsNotNull? ==> Body(n) == Print(n.target, 4) + ([IS_KW] + ([NOT_KW] + ([NULL_KW] + [])))
  {
  }

  lemma {:induction false} BetweenIs(n: Node)
    requires n.Between?
    ensures Body(n) == Print(n.target, 4) + ([BETWEEN_KW] + (Print(n.lo, 4) + ([AND_WORD] + Print(n.hi, 4))))
  {
  }

  lemma {:induction false} InIs(n: Node)
    requires n.In? && n.items != []
    ensures Body(n)
         == Print(n.target, 4) + ([IN_KW] + ([LPAREN] + (PrintItems(n.items) + ([RPAREN] + []))))
  {
  }

  lemma {:induction false} ItemsIs(items: seq<Node>)
    requires items != []
    ensures PrintItems(items)
         == if |items| == 1 then Print(items[0], 4) else Print(items[0], 4) + ([COMMA] + PrintItems(items[1..]))
  {
  }

  /** The descent undoes printing at every level. */
  lemma {:induction false} PrintParses(n: Node, level: nat, toks: seq<Token>, i: nat)
    requires 1 <= level <= 4
    requires WellFormed(n) && Shows(toks, i, Print(n, level))
    requires Ends(level, PeekAt(toks, i + |Print(n, level)|).kind)
    ensures Parses(n, level, toks, i, i + |Print(n, level)|)
    decreases n, 2
  {
    hide OrFrom, AndFrom, CompareFrom, PrimaryFrom, OrTail, AndTail, Items, Shows, Print, Body, PrintItems,
      PrintLeaf, WellFormed, Parses;
    PrintIs(n, level);
    var b := Body(n);
    var j := i + |Print(n, level)|;
    if Level(n) < level {
      ShowsCons(toks, i, LPAREN, b + ([RPAREN] + []));
      ShowsThen(toks, i + 1, b, RPAREN, []);
      BodyParses(n, toks, i + 1);
      Loosen(n, Level(n), 1, toks, i + 1, j - 1);
      ParenStep(toks, i, n, j - 1);
      Loosen(n, 4, level, toks, i, j);
    } else {
      ShowsFits(toks, i, b);
      EndsTighter(level, Level(n), PeekAt(toks, j).kind);
      BodyParses(n, toks, i);
      Loosen(n, Level(n), level, toks, i, j);
    }
  }

  lemma {:induction false} BodyParses(n: Node, toks: seq<Token>, i: nat)
    requires WellFormed(n) && Shows(toks, i, Body(n))
    requires Ends(Level(n), PeekAt(toks, i + |Body(n)|).kind)
    ensures Parses(n, Level(n), toks, i, i + |Body(n)|)
    decreases n, 1
  {
    hide OrFrom, AndFrom, CompareFrom, PrimaryFrom, OrTail, AndTail, Items, Shows, Print, Body, PrintItems,
      PrintLeaf, WellFormed;
    WellFormedParts(n);
    if IsLeaf(n) {
      LeafIs(n);
      LeafParses(n, toks, i);
    } else if n.Or? || n.And? {
      ConnectiveParses(n, toks, i);
    } else if n.In? {
      InParses(n, toks, i);
    } else if n.Between? {
      BetweenParses(n, toks, i);
    } else {
      if n.Compare? { OperatorParses(n, toks, i); } else { NullTestParses(n, toks, i); }
    }
  }

  lemma {:induction false} ConnectiveParses(n: Node, toks: seq<Token>, i: nat)
    requires n.Or? || n.And?
    requires WellFormed(n) && Shows(toks, i, Body(n))
    requires Ends(Level(n), PeekAt(toks, i + |Body(n)|).kind)
    ensures Parses(n, Level(n), toks, i, i + |Body(n)|)
    decreases n, 0
  {
    hide OrFrom, AndFrom, CompareFrom, PrimaryFrom, OrTail, AndTail, Items, Shows, Print, Body, PrintItems,
      PrintLeaf, WellFormed;
    WellFormedParts(n);
    ConnectiveIs(n);
    if n.Or? {
      var a, b := Print(n.l, 1), Print(n.r, 2);
      var j := i + |a|;
      ShowsThen(toks, i, a, OROR, b);
      PrintParses(n.l, 1, toks, i);
      PrintParses(n.r, 2, toks, j + 1);
      OrStep(toks, i, n.l, j, n.r, j + 1 + |b|);
    } else {
      var a, b := Print(n.l, 2), Print(n.r, 3);
      var j := i + |a|;
      ShowsThen(toks, i, a, ANDAND, b);
      PrintParses(n.l, 2, toks, i);
      PrintParses(n.r, 3, toks, j + 1);
      AndStep(toks, i, n.l, j, n.r, j + 1 + |b|);
    }
  }

  lemma {:induction false} OperatorParses(n: Node, toks: seq<Token>, i: nat)
    requires n.Compare?
    requires WellFormed(n) && Shows(toks, i, Body(n))
    requires PeekAt(toks, i + |Body(n)|).kind != Dot
    ensures CompareFrom(toks, i) == Ok((n, i + |Body(n)|))
    decreases n, 0
  {
    hide OrFrom, AndFrom, CompareFrom, PrimaryFrom, OrTail, AndTail, Items, Shows, Print, Body, PrintItems,
      PrintLeaf, WellFormed;
    WellFormedParts(n);
    ComparisonIs(n);
    var a, b := Print(n.l, 4), Print(n.r, 4);
    var j := i + |a|;
    ShowsThen(toks, i, a, Lexeme(Op, n.op), b);
    PrintParses(n.r, 4, toks, j + 1);
    PrintParses(n.l, 4, toks, i);
    CompareStep(toks, i, n.l, j, n.r, j + 1 + |b|);
  }

  lemma {:induction false} NullTestParses(n: Node, toks: seq<Token>, i: nat)
    requires n.IsNull? || n.IsNotNull?
    requires WellFormed(n) && Shows(toks, i, Body(n))
    requires PeekAt(toks, i + |Body(n)|).kind != Dot
    ensures CompareFrom(toks, i) == Ok((n, i + |Body(n)|))
    decreases n, 0
  {
    hide OrFrom, AndFrom, CompareFrom, PrimaryFrom, OrTail, AndTail, Items, Shows, Print, Body, PrintItems,
      PrintLeaf, WellFormed;
    WellFormedParts(n);
    ComparisonIs(n);
    var a := Print(n.target, 4);
    var j := i + |a|;
    if n.IsNull? {
      ShowsThen(toks, i, a, IS_KW, [NULL_KW] + []);
      ShowsCons(toks, j + 1, NULL_KW, []);
    } else {
      ShowsThen(toks, i, a, IS_KW, [NOT_KW] + ([NULL_KW] + []));
      ShowsCons(toks, j + 1, NOT_KW, [NULL_KW] + []);
      ShowsCons(toks, j + 2, NULL_KW, []);
    }
    PrintParses(n.target, 4, toks, i);
    NullStep(toks, i, n.target, j, n.IsNotNull?);
  }

  lemma {:induction false} BetweenParses(n: Node, toks: seq<Token>, i: nat)
    requires n.Between? && WellFormed(n) && Shows(toks, i, Body(n))
    requires PeekAt(toks, i + |Body(n)|).kind != Dot
    ensures CompareFrom(toks, i) == Ok((n, i + |Body(n)|))
    decreases n, 0
  {
    hide OrFrom, AndFrom, CompareFrom, PrimaryFrom, OrTail, AndTail, Items, Shows, Print, Body, PrintItems,
      PrintLeaf, WellFormed;
    WellFormedParts(n);
    var a, b, c := Print(n.target, 4), Print(n.lo, 4), Print(n.hi, 4);
    BetweenIs(n);
    var j := i + |a|;
    ShowsThen(toks, i, a, BETWEEN_KW, b + ([AND_WORD] + c));
    ShowsThen(toks, j + 1, b, AND_WORD, c);
    assert ToLower("AND") == "and";
    var k := j + 1 + |b|;
    PrintParses(n.target, 4, toks, i);
    PrintParses(n.lo, 4, toks, j + 1);
    PrintParses(n.hi, 4, toks, k + 1);
    BetweenStep(toks, i, n.target, j, n.lo, k, n.hi, k + 1 + |c|);
  }

  lemma {:induction false} InParses(n: Node, toks: seq<Token>, i: nat)
    requires n.In? && WellFormed(n) && Shows(toks, i, Body(n))
    ensures CompareFrom(toks, i) == Ok((n, i + |Body(n)|))
    decreases n, 0
  {
    hide OrFrom, AndFrom, CompareFrom, PrimaryFrom, OrTail, AndTail, Items, Shows, Print, Body, PrintItems,
      PrintLeaf, WellFormed;
    WellFormedParts(n);
    var a, b := Print(n.target, 4), PrintItems(n.items);
    InIs(n);
    ShowsThen(toks, i, a, IN_KW, [LPAREN] + (b + ([RPAREN] + [])));
    var j := i + |a|;
    ShowsCons(toks, j + 1, LPAREN, b + ([RPAREN] + []));
    ShowsThen(toks, j + 2, b, RPAREN, []);
    PrintParses(n.target, 4, toks, i);
    ItemsParse(n.items, toks, j + 2, []);
    assert [] + n.items == n.items;
    InStep(toks, i, n.target, j, n.items, j + 2 + |b|);
  }

  lemma {:induction false} ItemsParse(items: seq<Node>, toks: seq<Token>, i: nat, before: seq<Node>)
    requires items != [] && (forall x | x in items :: WellFormed(x))
    requires Shows(toks, i, PrintItems(items))
    requires PeekAt(toks, i + |PrintItems(items)|).kind == RParen
    ensures Items(toks, i, before) == Ok((before + items, i + |PrintItems(items)|))
    ensures PeekAt(toks, i).kind != RParen
    decreases items
  {
    hide OrFrom, AndFrom, CompareFrom, PrimaryFrom, OrTail, AndTail, Items, Shows, Print, Body, PrintItems,
      PrintLeaf, WellFormed;
    var a := Print(items[0], 4);
    var j := i + |a|;
    ItemsIs(items);
    if |items| == 1 {
      assert a == [a[0]] + a[1..];
      ShowsCons(toks, i, a[0], a[1..]);
      PrintParses(items[0], 4, toks, i);
      assert before + [items[0]] == before + items;
    } else {
      var b := PrintItems(items[1..]);
      ShowsThen(toks, i, a, COMMA, b);
      assert a == [a[0]] + a[1..];
      ShowsCons(toks, i, a[0], a[1..]);
      PrintParses(items[0], 4, toks, i);
      ItemsParse(items[1..], toks, j + 1, before + [items[0]]);
      assert before + [items[0]] + items[1..] == before + items;
    }
    ItemStep(toks, i, items[0], j, before);
  }
}
