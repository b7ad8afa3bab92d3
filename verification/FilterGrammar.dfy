/** The grammar of filters, apart from the descent that reads it, and the proof
    that the parser accepts exactly the token lists it derives. */
module FilterGrammar {
  import opened Text
  import opened FilterAst
  import opened FilterLexer
  import opened FilterParser
  import opened FilterPrinter
  import opened FilterRoundTrip
  import opened FilterAccepted

  /** What is written, redundant parentheses included. */
  datatype Phrase =
    | Either(a: Phrase, b: Phrase)
    | Both(a: Phrase, b: Phrase)
    | Relation(op: string, a: Phrase, b: Phrase)
    | Member(a: Phrase, items: seq<Phrase>)
    | Within(a: Phrase, lo: Phrase, andWord: string, hi: Phrase)
    | NullTest(a: Phrase, negate: bool)
    | Paren(a: Phrase)
    | Path(names: seq<string>)
    | Variable(name: string)
    | Quoted(s: string)
    | Whole(digits: string)
    | Fraction(whole: string, part: string)
    | Truth(holds: bool)
    | Nothing

  /** 1: or, 2: and, 3: one comparison or test, 4: an operand. */
  function Rank(p: Phrase): nat {
    match p
    case Either(_, _) => 1
    case Both(_, _) => 2
    case Relation(_, _, _) => 3
    case Member(_, _) => 3
    case Within(_, _, _, _) => 3
    case NullTest(_, _) => 3
    case _ => 4
  }

  /** `or → and (|| and)*`, `and → test (&& test)*`, `test → operand (op operand
      | IN (operand, …) | BETWEEN operand AND operand | IS [NOT] NULL)?`,
      `operand → literal | path | variable | (or)`. */
  predicate Derives(p: Phrase, level: nat) {
    && Rank(p) >= level
    && match p
       case Either(a, b) => Derives(a, 1) && Derives(b, 2)
       case Both(a, b) => Derives(a, 2) && Derives(b, 3)
       case Relation(_, a, b) => Derives(a, 4) && Derives(b, 4)
       case Member(a, items) => Derives(a, 4) && items != [] && forall x | x in items :: Derives(x, 4)
       case Within(a, lo, w, hi) => Derives(a, 4) && Derives(lo, 4) && ToLower(w) == "and" && Derives(hi, 4)
       case NullTest(a, _) => Derives(a, 4)
       case Paren(a) => Derives(a, 1)
       case Path(names) => names != []
       case Whole(digits) => digits != "" && AllDigits(digits) && NumberValue(digits) <= MAX_INT64
       case Fraction(whole, part) => whole != "" && AllDigits(whole) && AllDigits(part)
       case _ => true
  }

  /** The tree a phrase stands for. */
  function Denoted(p: Phrase): Node {
    match p
    case Either(a, b) => Or(Denoted(a), Denoted(b))
    case Both(a, b) => And(Denoted(a), Denoted(b))
    case Relation(op, a, b) => Compare(op, Denoted(a), Denoted(b))
    case Member(a, items) => In(Denoted(a), DenotedAll(items))
    case Within(a, lo, _, hi) => Between(Denoted(a), Denoted(lo), Denoted(hi))
    case NullTest(a, negate) => if negate then IsNotNull(Denoted(a)) else IsNull(Denoted(a))
    case Paren(a) => Denoted(a)
    case Path(names) =>
      if |names| == 0 then NullLit
      else if |names| == 1 then Ident(names[0], "")
      else Ident(names[|names| - 1], Join(names, '.'))
    case Variable(name) => MagicVar(name)
    case Quoted(s) => StringLit(s)
    case Whole(digits) => if AllDigits(digits) then IntLit(NumberValue(digits)) else NullLit
    case Fraction(whole, part) =>
      if AllDigits(whole + part) then FloatLit(NumberValue(whole + part), |part|) else NullLit
    case Truth(b) => BoolLit(b)
    case Nothing => NullLit
  }

  function DenotedAll(items: seq<Phrase>): (r: seq<Node>)
    ensures |r| == |items|
  {
    if items == [] then [] else [Denoted(items[0])] + DenotedAll(items[1..])
  }

  /** Its lexemes, left to right. */
  function Yield(p: Phrase): seq<Lexeme> {
    match p
    case Either(a, b) => Yield(a) + ([OROR] + Yield(b))
    case Both(a, b) => Yield(a) + ([ANDAND] + Yield(b))
    case Relation(op, a, b) => Yield(a) + ([Lexeme(Op, op)] + Yield(b))
    case Member(a, items) => Yield(a) + ([IN_KW] + ([LPAREN] + (YieldAll(items) + ([RPAREN] + []))))
    case Within(a, lo, w, hi) => Yield(a) + ([BETWEEN_KW] + (Yield(lo) + ([Lexeme(Name, w)] + Yield(hi))))
    case NullTest(a, negate) =>
      Yield(a) + ([IS_KW] + if negate then [NOT_KW] + ([NULL_KW] + []) else [NULL_KW] + [])
    case Paren(a) => [LPAREN] + (Yield(a) + ([RPAREN] + []))
    case Path(names) => if names == [] then [] else PrintPath(names)
    case Variable(name) => [Lexeme(Magic, name)] + []
    case Quoted(s) => [Lexeme(Str, s)] + []
    case Whole(digits) => [Lexeme(Int, digits)] + []
    case Fraction(whole, part) => [Lexeme(Float, whole + ("." + part))] + []
    case Truth(b) => [Lexeme(Bool, if b then "true" else "false")] + []
    case Nothing => [NULL_KW] + []
  }

  /** Items with commas between them. */
  function YieldAll(items: seq<Phrase>): seq<Lexeme> {
    if items == [] then []
    else if |items| == 1 then Yield(items[0])
    else Yield(items[0]) + ([COMMA] + YieldAll(items[1..]))
  }

  // The equations of the grammar, one step each.

  lemma {:induction false} ConnectiveParts(p: Phrase)
    ensures p.Either? ==>
              && Yield(p) == Yield(p.a) + ([OROR] + Yield(p.b)) && Denoted(p) == Or(Denoted(p.a), Denoted(p.b))
              && (Derives(p, 1) <==> Derives(p.a, 1) && Derives(p.b, 2))
    ensures p.Both? ==>
              && Yield(p) == Yield(p.a) + ([ANDAND] + Yield(p.b)) && Denoted(p) == And(Denoted(p.a), Denoted(p.b))
              && (Derives(p, 2) <==> Derives(p.a, 2) && Derives(p.b, 3))
  {
  }

  lemma {:induction false} RelationParts(p: Phrase)
    requires p.Relation?
    ensures Yield(p) == Yield(p.a) + ([Lexeme(Op, p.op)] + Yield(p.b))
    ensures Denoted(p) == Compare(p.op, Denoted(p.a), Denoted(p.b))
    ensures Derives(p, 3) <==> Derives(p.a, 4) && Derives(p.b, 4)
  {
  }

  lemma {:induction false} WithinParts(p: Phrase)
    requires p.Within?
    ensures Yield(p) ==
            Yield(p.a) + ([BETWEEN_KW] + (Yield(p.lo) + ([Lexeme(Name, p.andWord)] + Yield(p.hi))))
    ensures Denoted(p) == Between(Denoted(p.a), Denoted(p.lo), Denoted(p.hi))
    ensures Derives(p, 3) <==> Derives(p.a, 4) && Derives(p.lo, 4) && ToLower(p.andWord) == "and" && Derives(p.hi, 4)
  {
    hide ToLower;
  }

  lemma {:induction false} MemberParts(p: Phrase)
    requires p.Member?
    ensures Yield(p) == Yield(p.a) + ([IN_KW] + ([LPAREN] + (YieldAll(p.items) + ([RPAREN] + []))))
    ensures Denoted(p) == In(Denoted(p.a), DenotedAll(p.items))
    ensures Derives(p, 3) <==> Derives(p.a, 4) && p.items != [] && forall x | x in p.items :: Derives(x, 4)
  {
    hide YieldAll, DenotedAll;
  }

  lemma {:induction false} NullTestParts(p: Phrase)
    requires p.NullTest?
    ensures Yield(p) ==
            Yield(p.a) + ([IS_KW] + if p.negate then [NOT_KW] + ([NULL_KW] + []) else [NULL_KW] + [])
    ensures Denoted(p) == if p.negate then IsNotNull(Denoted(p.a)) else IsNull(Denoted(p.a))
    ensures Derives(p, 3) <==> Derives(p.a, 4)
  {
  }

  lemma {:induction false} ParenParts(p: Phrase)
    requires p.Paren?
    ensures Yield(p) == [LPAREN] + (Yield(p.a) + ([RPAREN] + [])) && Denoted(p) == Denoted(p.a)
    ensures Derives(p, 4) <==> Derives(p.a, 1)
  {
  }

  lemma {:induction false} ListParts(items: seq<Phrase>)
    requires items != []
    ensures YieldAll(items) ==
            if |items| == 1 then Yield(items[0]) else Yield(items[0]) + ([COMMA] + YieldAll(items[1..]))
    ensures DenotedAll(items) == [Denoted(items[0])] + DenotedAll(items[1..])
  {
    hide Yield, Denoted;
  }

  // ---- what is derived is parsed ----------------------------------------------------

  lemma {:induction false} OperandStarts(p: Phrase)
    requires Derives(p, 4)
    ensures Yield(p) != [] && Yield(p)[0].kind != RParen
  {
    hide PrintPath;
  }

  lemma {:induction false} FractionReads(whole: string, part: string)
    requires whole != "" && AllDigits(whole) && AllDigits(part)
    ensures AllDigits(whole + part)
    ensures FloatNode(whole + ("." + part)) == Some(FloatLit(NumberValue(whole + part), |part|))
  {
    var val := whole + ("." + part);
    DigitsLenAll(whole, "." + part);
    assert val[..|whole|] == whole && val[|whole| + 1..] == part && val[|whole|] == '.';
  }

  /** Entered at the level of a phrase, the descent reads the phrase. */
  lemma {:induction false} PhraseParses(p: Phrase, level: nat, toks: seq<Token>, i: nat)
    requires 1 <= level <= 4 && Derives(p, level) && Shows(toks, i, Yield(p))
    requires Ends(level, PeekAt(toks, i + |Yield(p)|).kind)
    ensures i + |Yield(p)| <= |toks| && Parses(Denoted(p), level, toks, i, i + |Yield(p)|)
    decreases p, 1
  {
    hide OrFrom, AndFrom, CompareFrom, PrimaryFrom, OrTail, AndTail, Items, Shows, Yield, Derives, Denoted;
    var j := i + |Yield(p)|;
    ShowsFits(toks, i, Yield(p));
    RankBounds(p, level);
    EndsTighter(level, Rank(p), PeekAt(toks, j).kind);
    if Rank(p) == 4 {
      OperandPhraseParses(p, toks, i);
    } else if Rank(p) == 3 {
      TestPhraseParses(p, toks, i);
    } else {
      ConnectivePhraseParses(p, toks, i);
    }
    Loosen(Denoted(p), Rank(p), level, toks, i, j);
  }

  lemma RankBounds(p: Phrase, level: nat)
    requires Derives(p, level)
    ensures level <= Rank(p) && 1 <= Rank(p) <= 4 && Derives(p, Rank(p))
  {
  }

  lemma {:induction false} ConnectivePhraseParses(p: Phrase, toks: seq<Token>, i: nat)
    requires Rank(p) <= 2 && Derives(p, Rank(p)) && Shows(toks, i, Yield(p))
    requires Ends(Rank(p), PeekAt(toks, i + |Yield(p)|).kind)
    ensures i + |Yield(p)| <= |toks| && Parses(Denoted(p), Rank(p), toks, i, i + |Yield(p)|)
    decreases p, 0
  {
    hide OrFrom, AndFrom, CompareFrom, PrimaryFrom, OrTail, AndTail, Items, Shows, Yield, Derives, Denoted, YieldAll,
      DenotedAll;
    ConnectiveParts(p);
    var x, y := Yield(p.a), Yield(p.b);
    var j := i + |x|;
    ShowsFits(toks, i, Yield(p));
    if p.Either? {
      ShowsThen(toks, i, x, OROR, y);
      PhraseParses(p.a, 1, toks, i);
      PhraseParses(p.b, 2, toks, j + 1);
      OrStep(toks, i, Denoted(p.a), j, Denoted(p.b), j + 1 + |y|);
    } else {
      ShowsThen(toks, i, x, ANDAND, y);
      PhraseParses(p.a, 2, toks, i);
      PhraseParses(p.b, 3, toks, j + 1);
      AndStep(toks, i, Denoted(p.a), j, Denoted(p.b), j + 1 + |y|);
    }
  }

  lemma {:induction false} TestPhraseParses(p: Phrase, toks: seq<Token>, i: nat)
    requires Rank(p) == 3 && Derives(p, 3) && Shows(toks, i, Yield(p))
    requires PeekAt(toks, i + |Yield(p)|).kind != Dot
    ensures i + |Yield(p)| <= |toks| && CompareFrom(toks, i) == Ok((Denoted(p), i + |Yield(p)|))
    decreases p, 0, 1
  {
    hide CompareFrom, Shows, Yield, Derives, Denoted;
    match p {
      case Relation(_, _, _) => RelationParses(p, toks, i);
      case Member(_, _) => MemberParses(p, toks, i);
      case Within(_, _, _, _) => WithinParses(p, toks, i);
      case NullTest(_, _) => NullTestParses(p, toks, i);
    }
  }

  lemma {:induction false} RelationParses(p: Phrase, toks: seq<Token>, i: nat)
    requires p.Relation? && Derives(p, 3) && Shows(toks, i, Yield(p))
    requires PeekAt(toks, i + |Yield(p)|).kind != Dot
    ensures i + |Yield(p)| <= |toks| && CompareFrom(toks, i) == Ok((Denoted(p), i + |Yield(p)|))
    decreases p, 0, 0
  {
    hide OrFrom, AndFrom, CompareFrom, PrimaryFrom, OrTail, AndTail, Items, Shows, Yield, Derives, Denoted, YieldAll,
      DenotedAll;
    RelationParts(p);
    ShowsFits(toks, i, Yield(p));
    var x, y := Yield(p.a), Yield(p.b);
    var j := i + |x|;
    ShowsThen(toks, i, x, Lexeme(Op, p.op), y);
    PhraseParses(p.a, 4, toks, i);
    PhraseParses(p.b, 4, toks, j + 1);
    CompareStep(toks, i, Denoted(p.a), j, Denoted(p.b), j + 1 + |y|);
  }

  lemma {:induction false} WithinParses(p: Phrase, toks: seq<Token>, i: nat)
    requires p.Within? && Derives(p, 3) && Shows(toks, i, Yield(p))
    requires PeekAt(toks, i + |Yield(p)|).kind != Dot
    ensures i + |Yield(p)| <= |toks| && CompareFrom(toks, i) == Ok((Denoted(p), i + |Yield(p)|))
    decreases p, 0, 0
  {
    hide OrFrom, AndFrom, CompareFrom, PrimaryFrom, OrTail, AndTail, Items, Shows, Yield, Derives, Denoted, YieldAll,
      DenotedAll;
    hide ToLower;
    WithinParts(p);
    ShowsFits(toks, i, Yield(p));
    var x, y, z, w := Yield(p.a), Yield(p.lo), Yield(p.hi), Lexeme(Name, p.andWord);
    var j := i + |x|;
    ShowsThen(toks, i, x, BETWEEN_KW, y + ([w] + z));
    ShowsThen(toks, j + 1, y, w, z);
    var k := j + 1 + |y|;
    PhraseParses(p.a, 4, toks, i);
    PhraseParses(p.lo, 4, toks, j + 1);
    PhraseParses(p.hi, 4, toks, k + 1);
    BetweenStep(toks, i, Denoted(p.a), j, Denoted(p.lo), k, Denoted(p.hi), k + 1 + |z|);
  }

  lemma {:induction false} NullTestParses(p: Phrase, toks: seq<Token>, i: nat)
    requires p.NullTest? && Derives(p, 3) && Shows(toks, i, Yield(p))
    ensures i + |Yield(p)| <= |toks| && CompareFrom(toks, i) == Ok((Denoted(p), i + |Yield(p)|))
    decreases p, 0, 0
  {
    hide OrFrom, AndFrom, CompareFrom, PrimaryFrom, OrTail, AndTail, Items, Shows, Yield, Derives, Denoted, YieldAll,
      DenotedAll;
    NullTestParts(p);
    ShowsFits(toks, i, Yield(p));
    var x := Yield(p.a);
    var j := i + |x|;
    if p.negate {
      ShowsThen(toks, i, x, IS_KW, [NOT_KW] + ([NULL_KW] + []));
      ShowsCons(toks, j + 1, NOT_KW, [NULL_KW] + []);
      ShowsCons(toks, j + 2, NULL_KW, []);
    } else {
      ShowsThen(toks, i, x, IS_KW, [NULL_KW] + []);
      ShowsCons(toks, j + 1, NULL_KW, []);
    }
    PhraseParses(p.a, 4, toks, i);
    NullStep(toks, i, Denoted(p.a), j, p.negate);
  }

  lemma {:induction false} MemberParses(p: Phrase, toks: seq<Token>, i: nat)
    requires p.Member? && Derives(p, 3) && Shows(toks, i, Yield(p))
    ensures i + |Yield(p)| <= |toks| && CompareFrom(toks, i) == Ok((Denoted(p), i + |Yield(p)|))
    decreases p, 0, 0
  {
    hide OrFrom, AndFrom, CompareFrom, PrimaryFrom, OrTail, AndTail, Items, Shows, Yield, Derives, Denoted, YieldAll,
      DenotedAll;
    MemberParts(p);
    ShowsFits(toks, i, Yield(p));
    var x, y := Yield(p.a), YieldAll(p.items);
    var j := i + |x|;
    ShowsThen(toks, i, x, IN_KW, [LPAREN] + (y + ([RPAREN] + [])));
    ShowsCons(toks, j + 1, LPAREN, y + ([RPAREN] + []));
    ShowsThen(toks, j + 2, y, RPAREN, []);
    PhraseParses(p.a, 4, toks, i);
    ItemPhrasesParse(p.items, toks, j + 2, []);
    assert [] + DenotedAll(p.items) == DenotedAll(p.items);
    InStep(toks, i, Denoted(p.a), j, DenotedAll(p.items), j + 2 + |y|);
  }

  lemma {:induction false} ItemPhrasesParse(items: seq<Phrase>, toks: seq<Token>, i: nat, before: seq<Node>)
    requires items != [] && (forall x | x in items :: Derives(x, 4))
    requires Shows(toks, i, YieldAll(items))
    requires PeekAt(toks, i + |YieldAll(items)|).kind == RParen
    ensures Items(toks, i, before) == Ok((before + DenotedAll(items), i + |YieldAll(items)|))
    ensures i + |YieldAll(items)| <= |toks| && PeekAt(toks, i).kind != RParen
    decreases items
  {
    hide OrFrom, AndFrom, CompareFrom, PrimaryFrom, OrTail, AndTail, Items, Shows, Yield, Derives, Denoted, YieldAll,
      DenotedAll;
    ListParts(items);
    var x := Yield(items[0]);
    var j := i + |x|;
    ShowsFits(toks, i, YieldAll(items));
    OperandStarts(items[0]);
    assert x == [x[0]] + x[1..];
    if |items| == 1 {
      ShowsCons(toks, i, x[0], x[1..]);
      PhraseParses(items[0], 4, toks, i);
      assert before + [Denoted(items[0])] == before + DenotedAll(items);
    } else {
      var y := YieldAll(items[1..]);
      ShowsThen(toks, i, x, COMMA, y);
      ShowsCons(toks, i, x[0], x[1..]);
      PhraseParses(items[0], 4, toks, i);
      ItemPhrasesParse(items[1..], toks, j + 1, before + [Denoted(items[0])]);
      assert before + [Denoted(items[0])] + DenotedAll(items[1..]) == before + DenotedAll(items);
    }
    ItemStep(toks, i, Denoted(items[0]), j, before);
  }

  lemma {:induction false} OperandPhraseParses(p: Phrase, toks: seq<Token>, i: nat)
    requires Rank(p) == 4 && Derives(p, 4) && Shows(toks, i, Yield(p))
    requires PeekAt(toks, i + |Yield(p)|).kind != Dot
    ensures i + |Yield(p)| <= |toks| && PrimaryFrom(toks, i) == Ok((Denoted(p), i + |Yield(p)|))
    decreases p, 0, 1
  {
    hide Shows, PrimaryFrom, Derives, Denoted, Yield, PrintPath, IdentOf;
    ShowsFits(toks, i, Yield(p));
    if p.Paren? {
      ParenParses(p, toks, i);
    } else if p.Path? {
      PathParts(p);
      PathParses(p.names, toks, i);
    } else {
      LiteralPhrase(p);
      ShowsCons(toks, i, Yield(p)[0], []);
      LiteralStep(p, toks, i);
    }
  }

  lemma {:induction false} ParenParses(p: Phrase, toks: seq<Token>, i: nat)
    requires p.Paren? && Derives(p, 4) && Shows(toks, i, Yield(p))
    ensures i + |Yield(p)| <= |toks| && PrimaryFrom(toks, i) == Ok((Denoted(p), i + |Yield(p)|))
    decreases p, 0, 0
  {
    hide OrFrom, PrimaryFrom, Shows, Yield, Derives, Denoted;
    ShowsFits(toks, i, Yield(p));
    ParenParts(p);
    ShowsCons(toks, i, LPAREN, Yield(p.a) + ([RPAREN] + []));
    ShowsThen(toks, i + 1, Yield(p.a), RPAREN, []);
    PhraseParses(p.a, 1, toks, i + 1);
    ParenStep(toks, i, Denoted(p.a), i + 1 + |Yield(p.a)|);
  }

  lemma PathParts(p: Phrase)
    requires p.Path? && Derives(p, 4)
    ensures p.names != [] && Yield(p) == PrintPath(p.names) && Denoted(p) == IdentOf(p.names)
  {
    hide PrintPath, Join;
  }

  predicate IsLiteral(p: Phrase) {
    p.Variable? || p.Quoted? || p.Whole? || p.Fraction? || p.Truth? || p.Nothing?
  }

  lemma LiteralPhrase(p: Phrase)
    requires IsLiteral(p)
    ensures |Yield(p)| == 1 && Yield(p) == [Yield(p)[0]] + []
  {
  }

  lemma {:induction false} LiteralStep(p: Phrase, toks: seq<Token>, i: nat)
    requires IsLiteral(p) && Derives(p, 4) && i < |toks| && |Yield(p)| == 1
    requires toks[i].kind == Yield(p)[0].kind && toks[i].val == Yield(p)[0].val
    ensures PrimaryFrom(toks, i) == Ok((Denoted(p), i + 1))
  {
    hide FloatNode, OrFrom, Segments;
    if p.Fraction? { FractionReads(p.whole, p.part); }
  }

  // ---- what is parsed is derived --------------------------------------------------------

  /** The descent at a level read a phrase from `i` up to `j`. */
  ghost predicate Reads(p: Phrase, level: nat, n: Node, toks: seq<Token>, i: nat, j: nat) {
    Derives(p, level) && Denoted(p) == n && Shows(toks, i, Yield(p)) && j == i + |Yield(p)|
  }

  lemma ShowsOne(toks: seq<Token>, i: nat, x: Lexeme)
    requires i < |toks| && toks[i].kind == x.kind && toks[i].val == x.val
    ensures Shows(toks, i, [x]) && Shows(toks, i, [x] + [])
  {
  }

  lemma ShowsJoin(toks: seq<Token>, i: nat, a: seq<Lexeme>, b: seq<Lexeme>)
    requires Shows(toks, i, a) && Shows(toks, i + |a|, b)
    ensures Shows(toks, i, a + b)
  {
  }

  /** A token list from the lexer: each token is what the lexer can make. */
  lemma TokenIs(toks: seq<Token>, i: nat)
    requires ValidTokens(toks) && i < |toks|
    ensures ValidToken(toks[i])
  {
  }

  /** Operators, keywords and punctuation show as the fixed lexemes. */
  lemma {:induction false} FixedShows(toks: seq<Token>, i: nat, x: Lexeme)
    requires ValidTokens(toks) && PeekAt(toks, i).kind == x.kind
    requires x in {OROR, ANDAND, IN_KW, BETWEEN_KW, IS_KW, NOT_KW, NULL_KW, LPAREN, RPAREN, COMMA, DOT}
    ensures i < |toks| && Shows(toks, i, [x]) && Shows(toks, i, [x] + [])
  {
    TokenIs(toks, i);
    ShowsOne(toks, i, x);
  }

  lemma {:induction false} OperandRead(toks: seq<Token>, i: nat) returns (p: Phrase)
    requires i <= |toks| && ValidTokens(toks) && PrimaryFrom(toks, i).Ok?
    ensures Reads(p, 4, PrimaryFrom(toks, i).value.0, toks, i, PrimaryFrom(toks, i).value.1)
    decreases |toks| - i, 0
  {
    hide OrFrom, Shows, Segments, FloatNode, IntNode, ValidTokens, ValidToken;
    var t := PeekAt(toks, i);
    var (n, j) := PrimaryFrom(toks, i).value;
    match t.kind {
      case LParen =>
        var a := OrRead(toks, i + 1);
        p := Paren(a);
        ParenParts(p);
        FixedShows(toks, i, LPAREN);
        FixedShows(toks, j - 1, RPAREN);
        ShowsJoin(toks, i + 1, Yield(a), [RPAREN] + []);
        ShowsJoin(toks, i, [LPAREN], Yield(a) + ([RPAREN] + []));
      case Name =>
        var names := PathRead(toks, i + 1, [t.val]);
        p := Path(names);
        PathYield(toks, i, names);
      case _ => p := LeafRead(toks, i);
    }
  }

  lemma {:induction false} LeafRead(toks: seq<Token>, i: nat) returns (p: Phrase)
    requires i < |toks| && ValidTokens(toks) && PrimaryFrom(toks, i).Ok?
    requires toks[i].kind != LParen && toks[i].kind != Name
    ensures Reads(p, 4, PrimaryFrom(toks, i).value.0, toks, i, PrimaryFrom(toks, i).value.1)
  {
    hide Yield, Derives, Denoted, Shows, PrimaryFrom;
    var t := toks[i];
    TokenIs(toks, i);
    p := LeafPhrase(toks, i);
    LiteralPhrase(p);
    ShowsOne(toks, i, Lexeme(t.kind, t.val));
    LiteralStep(p, toks, i);
  }

  lemma {:induction false} LeafPhrase(toks: seq<Token>, i: nat) returns (p: Phrase)
    requires i < |toks| && ValidToken(toks[i]) && PrimaryFrom(toks, i).Ok?
    requires toks[i].kind != LParen && toks[i].kind != Name
    ensures IsLiteral(p) && Derives(p, 4) && Yield(p) == [Lexeme(toks[i].kind, toks[i].val)]
  {
    hide OrFrom, Segments, FloatNode, Denoted, Yield, Derives, ValidToken, IntNode;
    var t := toks[i];
    match t.kind {
      case Magic => p := Variable(t.val);
      case Str => p := Quoted(t.val);
      case Int => p := Whole(t.val);
      case Float =>
        var k := DigitsLen(t.val);
        FloatSplits(t);
        p := Fraction(t.val[..k], t.val[k + 1..]);
      case Bool => p := Truth(t.val == "true");
      case Null => p := Nothing;
    }
    LeafYields(t, p);
  }

  lemma FloatSplits(t: Token)
    requires ValidToken(t) && t.kind == Float
    ensures var k := DigitsLen(t.val);
            && 0 < k < |t.val| && t.val == t.val[..k] + ("." + t.val[k + 1..])
            && AllDigits(t.val[..k]) && AllDigits(t.val[k + 1..])
  {
  }

  lemma LeafYields(t: Token, p: Phrase)
    requires ValidToken(t)
    requires || (t.kind == Magic && p == Variable(t.val)) || (t.kind == Str && p == Quoted(t.val))
             || (t.kind == Int && p == Whole(t.val) && IntNode(t).Some?)
             || (t.kind == Float && p.Fraction? && t.val == p.whole + ("." + p.part) && p.whole != ""
                 && AllDigits(p.whole) && AllDigits(p.part))
             || (t.kind == Bool && p == Truth(t.val == "true")) || (t.kind == Null && p == Nothing)
    ensures IsLiteral(p) && Derives(p, 4) && Yield(p) == [Lexeme(t.kind, t.val)]
  {
  }

  lemma {:induction false} PathRead(toks: seq<Token>, i: nat, before: seq<string>) returns (names: seq<string>)
    requires i <= |toks| && before != [] && ValidTokens(toks) && Segments(toks, i, before).Ok?
    ensures before <= names && Segments(toks, i, before).value.0 == IdentOf(names)
    ensures Segments(toks, i, before).value.1 == i + 2 * (|names| - |before|)
    ensures Dotted(toks, i, names[|before|..])
    decreases |toks| - i
  {
    hide ValidTokens;
    if PeekAt(toks, i).kind != Dot {
      names := before;
    } else {
      var seg := PeekAt(toks, i + 1);
      names := PathRead(toks, i + 2, before + [seg.val]);
      assert names[|before|..] == [seg.val] + names[|before| + 1..];
    }
  }

  /** From `i`: a dot and a name, for each of the names. */
  ghost predicate Dotted(toks: seq<Token>, i: nat, names: seq<string>)
    decreases |names|
  {
    names == [] ||
    (PeekAt(toks, i).kind == Dot && PeekAt(toks, i + 1).kind == Name && PeekAt(toks, i + 1).val == names[0]
     && Dotted(toks, i + 2, names[1..]))
  }

  lemma {:induction false} PathYield(toks: seq<Token>, i: nat, names: seq<string>)
    requires names != [] && ValidTokens(toks) && PeekAt(toks, i).kind == Name && PeekAt(toks, i).val == names[0]
    requires Dotted(toks, i + 1, names[1..])
    ensures Shows(toks, i, PrintPath(names)) && |PrintPath(names)| == 2 * |names| - 1
    decreases |names|
  {
    hide Shows, ValidTokens;
    ShowsOne(toks, i, Lexeme(Name, names[0]));
    if |names| > 1 {
      FixedShows(toks, i + 1, DOT);
      PathYield(toks, i + 2, names[1..]);
      ShowsJoin(toks, i, [Lexeme(Name, names[0])], [DOT]);
      assert [Lexeme(Name, names[0])] + [DOT] == [Lexeme(Name, names[0]), DOT];
      ShowsJoin(toks, i, [Lexeme(Name, names[0]), DOT], PrintPath(names[1..]));
    }
  }

  lemma {:induction false} ItemsRead(toks: seq<Token>, i: nat, before: seq<Node>) returns (items: seq<Phrase>)
    requires i <= |toks| && ValidTokens(toks) && Items(toks, i, before).Ok?
    ensures items != [] && forall x | x in items :: Derives(x, 4)
    ensures Items(toks, i, before).value.0 == before + DenotedAll(items)
    ensures Shows(toks, i, YieldAll(items)) && Items(toks, i, before).value.1 == i + |YieldAll(items)|
    decreases |toks| - i, 1
  {
    hide PrimaryFrom, Shows, ValidTokens, Yield, Denoted, Derives, YieldAll, DenotedAll;
    var a := OperandRead(toks, i);
    var (x, j) := PrimaryFrom(toks, i).value;
    if PeekAt(toks, j).kind == Comma {
      var rest := ItemsRead(toks, j + 1, before + [x]);
      items := [a] + rest;
      assert items[1..] == rest;
      ListParts(items);
      FixedShows(toks, j, COMMA);
      ShowsJoin(toks, j, [COMMA], YieldAll(rest));
      ShowsJoin(toks, i, Yield(a), [COMMA] + YieldAll(rest));
      assert before + [x] + DenotedAll(rest) == before + DenotedAll(items);
    } else {
      items := [a];
      ListParts(items);
      assert DenotedAll([]) == [] && items[1..] == [] by { NoneDenoted(); }
    }
  }

  lemma NoneDenoted()
    ensures DenotedAll([]) == []
  {
  }

  lemma {:induction false} TestRead(toks: seq<Token>, i: nat) returns (p: Phrase)
    requires i <= |toks| && ValidTokens(toks) && CompareFrom(toks, i).Ok?
    ensures Reads(p, 3, CompareFrom(toks, i).value.0, toks, i, CompareFrom(toks, i).value.1)
    decreases |toks| - i, 3
  {
    hide PrimaryFrom, Items, Shows, ValidTokens, Yield, Derives, Denoted, YieldAll, DenotedAll;
    var a := OperandRead(toks, i);
    var (left, j) := PrimaryFrom(toks, i).value;
    var t := PeekAt(toks, j);
    Weaker(a, 4, 3);
    if t.kind == Op {
      var b := OperandRead(toks, j + 1);
      p := Relation(t.val, a, b);
      RelationParts(p);
      ShowsOne(toks, j, Lexeme(Op, t.val));
      ShowsJoin(toks, j, [Lexeme(Op, t.val)], Yield(b));
      ShowsJoin(toks, i, Yield(a), [Lexeme(Op, t.val)] + Yield(b));
    } else if t.kind == BetweenKw {
      p := WithinRead(toks, i, a, left, j);
    } else if t.kind == InKw {
      p := MemberRead(toks, i, a, left, j);
    } else if t.kind == IsKw {
      p := NullTestRead(toks, i, a, left, j);
    } else {
      p := a;
    }
  }

  lemma Weaker(p: Phrase, tight: nat, level: nat)
    requires Derives(p, tight) && level <= tight
    ensures Derives(p, level)
  {
  }

  lemma {:induction false} WithinRead(toks: seq<Token>, i: nat, a: Phrase, left: Node, j: nat) returns (p: Phrase)
    requires i < j <= |toks| && ValidTokens(toks) && PeekAt(toks, j).kind == BetweenKw
    requires Reads(a, 4, left, toks, i, j) && CompareTail(toks, j, left).Ok?
    ensures Reads(p, 3, CompareTail(toks, j, left).value.0, toks, i, CompareTail(toks, j, left).value.1)
    decreases |toks| - i, 2
  {
    hide PrimaryFrom, Items, Shows, ValidTokens, Yield, Derives, Denoted, YieldAll, DenotedAll;
    var lo := OperandRead(toks, j + 1);
    var (low, k) := PrimaryFrom(toks, j + 1).value;
    var hi := OperandRead(toks, k + 1);
    var w := PeekAt(toks, k);
    p := Within(a, lo, w.val, hi);
    WithinParts(p);
    FixedShows(toks, j, BETWEEN_KW);
    ShowsOne(toks, k, Lexeme(Name, w.val));
    ShowsJoin(toks, k, [Lexeme(Name, w.val)], Yield(hi));
    ShowsJoin(toks, j + 1, Yield(lo), [Lexeme(Name, w.val)] + Yield(hi));
    ShowsJoin(toks, j, [BETWEEN_KW], Yield(lo) + ([Lexeme(Name, w.val)] + Yield(hi)));
    ShowsJoin(toks, i, Yield(a), [BETWEEN_KW] + (Yield(lo) + ([Lexeme(Name, w.val)] + Yield(hi))));
  }

  lemma {:induction false} MemberRead(toks: seq<Token>, i: nat, a: Phrase, left: Node, j: nat) returns (p: Phrase)
    requires i < j <= |toks| && ValidTokens(toks) && PeekAt(toks, j).kind == InKw
    requires Reads(a, 4, left, toks, i, j) && CompareTail(toks, j, left).Ok?
    ensures Reads(p, 3, CompareTail(toks, j, left).value.0, toks, i, CompareTail(toks, j, left).value.1)
    decreases |toks| - i, 2
  {
    hide PrimaryFrom, Items, Shows, ValidTokens, Yield, Derives, Denoted, YieldAll, DenotedAll;
    var items := ItemsRead(toks, j + 2, []);
    p := Member(a, items);
    MemberParts(p);
    var y := YieldAll(items);
    var k := j + 2 + |y|;
    assert [] + DenotedAll(items) == DenotedAll(items);
    FixedShows(toks, j, IN_KW);
    FixedShows(toks, j + 1, LPAREN);
    FixedShows(toks, k, RPAREN);
    ShowsJoin(toks, j + 2, y, [RPAREN] + []);
    ShowsJoin(toks, j + 1, [LPAREN], y + ([RPAREN] + []));
    ShowsJoin(toks, j, [IN_KW], [LPAREN] + (y + ([RPAREN] + [])));
    ShowsJoin(toks, i, Yield(a), [IN_KW] + ([LPAREN] + (y + ([RPAREN] + []))));
  }

  lemma {:induction false} NullTestRead(toks: seq<Token>, i: nat, a: Phrase, left: Node, j: nat) returns (p: Phrase)
    requires i < j <= |toks| && ValidTokens(toks) && PeekAt(toks, j).kind == IsKw
    requires Reads(a, 4, left, toks, i, j) && CompareTail(toks, j, left).Ok?
    ensures Reads(p, 3, CompareTail(toks, j, left).value.0, toks, i, CompareTail(toks, j, left).value.1)
  {
    hide PrimaryFrom, Items, Shows, ValidTokens, Yield, Derives, Denoted, YieldAll, DenotedAll;
    var negate := PeekAt(toks, j + 1).kind == NotKw;
    p := NullTest(a, negate);
    NullTestParts(p);
    FixedShows(toks, j, IS_KW);
    if negate {
      FixedShows(toks, j + 1, NOT_KW);
      FixedShows(toks, j + 2, NULL_KW);
      ShowsJoin(toks, j + 1, [NOT_KW], [NULL_KW] + []);
      ShowsJoin(toks, j, [IS_KW], [NOT_KW] + ([NULL_KW] + []));
      ShowsJoin(toks, i, Yield(a), [IS_KW] + ([NOT_KW] + ([NULL_KW] + [])));
    } else {
      FixedShows(toks, j + 1, NULL_KW);
      ShowsJoin(toks, j, [IS_KW], [NULL_KW] + []);
      ShowsJoin(toks, i, Yield(a), [IS_KW] + ([NULL_KW] + []));
    }
  }

  lemma {:induction false} AndTailRead(toks: seq<Token>, i: nat, j: nat, a: Phrase, left: Node) returns (p: Phrase)
    requires i < j <= |toks| && ValidTokens(toks) && AndTail(toks, j, left).Ok?
    requires Reads(a, 2, left, toks, i, j)
    ensures Reads(p, 2, AndTail(toks, j, left).value.0, toks, i, AndTail(toks, j, left).value.1)
    decreases |toks| - j, 4
  {
    hide CompareFrom, Shows, ValidTokens, Yield, Derives, Denoted;
    if PeekAt(toks, j).kind != AndAnd {
      p := a;
    } else {
      var b := TestRead(toks, j + 1);
      var (right, k) := CompareFrom(toks, j + 1).value;
      FixedShows(toks, j, ANDAND);
      ShowsJoin(toks, j, [ANDAND], Yield(b));
      ShowsJoin(toks, i, Yield(a), [ANDAND] + Yield(b));
      ConnectiveParts(Both(a, b));
      p := AndTailRead(toks, i, k, Both(a, b), And(left, right));
    }
  }

  lemma {:induction false} AndRead(toks: seq<Token>, i: nat) returns (p: Phrase)
    requires i <= |toks| && ValidTokens(toks) && AndFrom(toks, i).Ok?
    ensures Reads(p, 2, AndFrom(toks, i).value.0, toks, i, AndFrom(toks, i).value.1)
    decreases |toks| - i, 5
  {
    hide CompareFrom, AndTail, Shows, ValidTokens, Yield, Derives, Denoted;
    var a := TestRead(toks, i);
    var (left, j) := CompareFrom(toks, i).value;
    Weaker(a, 3, 2);
    p := AndTailRead(toks, i, j, a, left);
  }

  lemma {:induction false} OrTailRead(toks: seq<Token>, i: nat, j: nat, a: Phrase, left: Node) returns (p: Phrase)
    requires i < j <= |toks| && ValidTokens(toks) && OrTail(toks, j, left).Ok?
    requires Reads(a, 1, left, toks, i, j)
    ensures Reads(p, 1, OrTail(toks, j, left).value.0, toks, i, OrTail(toks, j, left).value.1)
    decreases |toks| - j, 6
  {
    hide AndFrom, Shows, ValidTokens, Yield, Derives, Denoted;
    if PeekAt(toks, j).kind != OrOr {
      p := a;
    } else {
      var b := AndRead(toks, j + 1);
      var (right, k) := AndFrom(toks, j + 1).value;
      FixedShows(toks, j, OROR);
      ShowsJoin(toks, j, [OROR], Yield(b));
      ShowsJoin(toks, i, Yield(a), [OROR] + Yield(b));
      ConnectiveParts(Either(a, b));
      p := OrTailRead(toks, i, k, Either(a, b), Or(left, right));
    }
  }

  lemma {:induction false} OrRead(toks: seq<Token>, i: nat) returns (p: Phrase)
    requires i <= |toks| && ValidTokens(toks) && OrFrom(toks, i).Ok?
    ensures Reads(p, 1, OrFrom(toks, i).value.0, toks, i, OrFrom(toks, i).value.1)
    decreases |toks| - i, 7
  {
    hide AndFrom, OrTail, Shows, ValidTokens, Yield, Derives, Denoted;
    var a := AndRead(toks, i);
    var (left, j) := AndFrom(toks, i).value;
    Weaker(a, 2, 1);
    p := OrTailRead(toks, i, j, a, left);
  }

  // ---- sources ------------------------------------------------------------------------------

  /** The tokens spell a phrase of the grammar and then end. */
  ghost predicate Spells(toks: seq<Token>, p: Phrase) {
    Shows(toks, 0, Yield(p)) && |toks| == |Yield(p)| + 1 && toks[|Yield(p)|].kind == EOF
  }

  /** The lexer puts one end at the end. */
  lemma {:induction false} OneEnd(s: string, pos: nat)
    requires LexFrom(s, pos).Ok?
    ensures var toks := LexFrom(s, pos).value;
            toks != [] && toks[|toks| - 1].kind == EOF && forall i | 0 <= i < |toks| - 1 :: toks[i].kind != EOF
    decreases |s|
  {
    hide Step;
    if s != "" {
      var (t, n) := Step(s, pos).value;
      OneEnd(s[n..], pos + n);
      if t.Some? { StepKind(s, pos); }
    }
  }

  lemma StepKind(s: string, pos: nat)
    requires s != "" && Step(s, pos).Ok? && Step(s, pos).value.0.Some?
    ensures Step(s, pos).value.0.value.kind != EOF
  {
    hide StringBody, IdentLen, MagicLen, DigitsLen, ToLower;
  }

  ghost predicate Endless(p: seq<Lexeme>) { forall x | x in p :: x.kind != EOF }

  lemma Joined(a: seq<Lexeme>, b: seq<Lexeme>)
    requires Endless(a) && Endless(b)
    ensures Endless(a + b)
  {
  }

  lemma OneEndless(x: Lexeme)
    requires x.kind != EOF
    ensures Endless([x]) && [x] + [] == [x]
  {
  }

  lemma FixedEndless(w: string)
    ensures Endless([OROR]) && Endless([ANDAND]) && Endless([IN_KW]) && Endless([LPAREN]) && Endless([RPAREN] + [])
    ensures Endless([BETWEEN_KW]) && Endless([Lexeme(Name, w)]) && Endless([Lexeme(Op, w)])
    ensures Endless([IS_KW] + ([NOT_KW] + ([NULL_KW] + []))) && Endless([IS_KW] + ([NULL_KW] + []))
  {
    hide Endless;
    OneEndless(OROR);
    OneEndless(ANDAND);
    OneEndless(IN_KW);
    OneEndless(LPAREN);
    OneEndless(RPAREN);
    OneEndless(BETWEEN_KW);
    OneEndless(Lexeme(Name, w));
    OneEndless(Lexeme(Op, w));
    OneEndless(IS_KW);
    OneEndless(NOT_KW);
    OneEndless(NULL_KW);
    Joined([NOT_KW], [NULL_KW] + []);
    Joined([IS_KW], [NOT_KW] + ([NULL_KW] + []));
    Joined([IS_KW], [NULL_KW] + []);
  }

  lemma {:induction false} YieldEndless(p: Phrase)
    ensures Endless(Yield(p))
  {
    hide Endless, Yield, YieldAll, Derives, Denoted, PrintPath;
    FixedEndless(if p.Within? then p.andWord else if p.Relation? then p.op else "");
    match p {
      case Either(a, b) =>
        ConnectiveParts(p);
        YieldEndless(a);
        YieldEndless(b);
        Joined([OROR], Yield(b));
        Joined(Yield(a), [OROR] + Yield(b));
      case Both(a, b) =>
        ConnectiveParts(p);
        YieldEndless(a);
        YieldEndless(b);
        Joined([ANDAND], Yield(b));
        Joined(Yield(a), [ANDAND] + Yield(b));
      case Relation(op, a, b) =>
        RelationParts(p);
        YieldEndless(a);
        YieldEndless(b);
        Joined([Lexeme(Op, op)], Yield(b));
        Joined(Yield(a), [Lexeme(Op, op)] + Yield(b));
      case Member(a, items) =>
        MemberParts(p);
        YieldEndless(a);
        ItemsEndless(items);
        Joined(YieldAll(items), [RPAREN] + []);
        Joined([LPAREN], YieldAll(items) + ([RPAREN] + []));
        Joined([IN_KW], [LPAREN] + (YieldAll(items) + ([RPAREN] + [])));
        Joined(Yield(a), [IN_KW] + ([LPAREN] + (YieldAll(items) + ([RPAREN] + []))));
      case Within(a, lo, w, hi) =>
        WithinParts(p);
        YieldEndless(a);
        YieldEndless(lo);
        YieldEndless(hi);
        Joined([Lexeme(Name, w)], Yield(hi));
        Joined(Yield(lo), [Lexeme(Name, w)] + Yield(hi));
        Joined([BETWEEN_KW], Yield(lo) + ([Lexeme(Name, w)] + Yield(hi)));
        Joined(Yield(a), [BETWEEN_KW] + (Yield(lo) + ([Lexeme(Name, w)] + Yield(hi))));
      case NullTest(a, negate) =>
        NullTestParts(p);
        YieldEndless(a);
        Joined(Yield(a), [IS_KW] + if negate then [NOT_KW] + ([NULL_KW] + []) else [NULL_KW] + []);
      case Paren(a) =>
        ParenParts(p);
        YieldEndless(a);
        Joined(Yield(a), [RPAREN] + []);
        Joined([LPAREN], Yield(a) + ([RPAREN] + []));
      case _ => LeafEndless(p);
    }
  }

  lemma {:induction false} LeafEndless(p: Phrase)
    requires p.Path? || IsLiteral(p)
    ensures Endless(Yield(p))
  {
    hide PrintPath;
    if p.Path? && p.names != [] { PathEndless(p.names); }
  }

  lemma {:induction false} ItemsEndless(items: seq<Phrase>)
    ensures Endless(YieldAll(items))
  {
    hide Yield;
    if items != [] {
      YieldEndless(items[0]);
      ItemsEndless(items[1..]);
    }
  }

  lemma {:induction false} PathEndless(names: seq<string>)
    requires names != []
    ensures Endless(PrintPath(names))
  {
    if |names| > 1 { PathEndless(names[1..]); }
  }

  lemma {:induction false} TokensParseIff(src: string, n: Node)
    requires LexFrom(src, 0).Ok?
    ensures ParseSource(src) == Ok(n) <==>
            exists p: Phrase :: Derives(p, 1) && Denoted(p) == n && Spells(LexFrom(src, 0).value, p)
  {
    hide LexFrom, OrFrom, Shows, ValidTokens, Derives, Denoted, Yield, Endless;
    var toks := LexFrom(src, 0).value;
    LexedValid(src, 0);
    OneEnd(src, 0);
    if ParseSource(src) == Ok(n) {
      var p := OrRead(toks, 0);
      var j := OrFrom(toks, 0).value.1;
      ShowsFits(toks, 0, Yield(p));
      YieldEndless(p);
      EndsThere(toks, Yield(p));
    }
    if p: Phrase :| Derives(p, 1) && Denoted(p) == n && Spells(toks, p) {
      PhraseParses(p, 1, toks, 0);
      assert OrTail(toks, |Yield(p)|, n) == Ok((n, |Yield(p)|));
    }
  }

  lemma EndsThere(toks: seq<Token>, p: seq<Lexeme>)
    requires Shows(toks, 0, p) && Endless(p) && PeekAt(toks, |p|).kind == EOF
    requires toks != [] && toks[|toks| - 1].kind == EOF && forall i | 0 <= i < |toks| - 1 :: toks[i].kind != EOF
    ensures |toks| == |p| + 1 && toks[|p|].kind == EOF
  {
  }

  /** Where a whole expression is followed by a token that cannot continue it,
      the source is refused at that token. */
  lemma {:induction false} LeftoverRefused(src: string, p: Phrase)
    requires LexFrom(src, 0).Ok? && Derives(p, 1)
    requires var toks := LexFrom(src, 0).value;
             && Shows(toks, 0, Yield(p)) && |Yield(p)| < |toks|
             && Ends(1, toks[|Yield(p)|].kind) && toks[|Yield(p)|].kind != OrOr && toks[|Yield(p)|].kind != EOF
    ensures ParseSource(src) == Err(PositionedError(LexFrom(src, 0).value[|Yield(p)|].pos, TrailingToken))
  {
    hide LexFrom, OrFrom, Shows, Derives, Denoted, Yield;
    var toks := LexFrom(src, 0).value;
    PhraseParses(p, 1, toks, 0);
    var n := Denoted(p);
    assert OrTail(toks, |Yield(p)|, n) == Ok((n, |Yield(p)|));
  }
}
