/** Lexing undoes every layout of a printing, hence parsing undoes printing;
    and every source the parser accepts denotes a printable tree. */
module FilterRoundTrip {
  import opened Text
  import opened FilterAst
  import opened FilterLexer
  import opened FilterParser
  import opened FilterPrinter

  /** The body of a single-quoted literal: quotes and backslashes escaped. */
  function Escape(s: string): string {
    if s == "" then ""
    else (if s[0] == '\'' || s[0] == '\\' then ['\\', s[0]] else [s[0]]) + Escape(s[1..])
  }

  function Spelling(x: Lexeme): string {
    if x.kind == Str then "'" + Escape(x.val) + "'" else x.val
  }

  predicate IsFloatText(s: string) {
    var n := DigitsLen(s);
    0 < n < |s| && s[n] == '.' && AllDigits(s[n + 1..])
  }

  /** Lexemes the lexer can produce. */
  predicate Lexical(x: Lexeme) {
    match x.kind
    case EOF => false
    case Name => IsName(x.val)
    case Magic => x.val in MAGIC_NAMES
    case Str => true
    case Int => x.val != "" && AllDigits(x.val)
    case Float => IsFloatText(x.val)
    case Bool => x.val == "true" || x.val == "false"
    case Null => x.val == "null"
    case InKw => x.val == "IN"
    case BetweenKw => x.val == "BETWEEN"
    case IsKw => x.val == "IS"
    case NotKw => x.val == "NOT"
    case LParen => x.val == "("
    case RParen => x.val == ")"
    case Comma => x.val == ","
    case Dot => x.val == "."
    case AndAnd => x.val == "&&"
    case OrOr => x.val == "||"
    case Op => x.val in COMPARE_OPS
  }

  predicate IsWordKind(k: Kind) {
    k == Name || k == Bool || k == Null || k == InKw || k == BetweenKw || k == IsKw || k == NotKw
  }

  /** `c` directly after `x` does not become part of it. */
  predicate CanFollow(x: Lexeme, c: char) {
    && (IsWordKind(x.kind) ==> !IsIdentCont(c))
    && (x.kind == Magic ==> !IsMagicChar(c))
    && (x.kind == Int ==> !IsDigit(c) && c != '.')
    && (x.kind == Float ==> !IsDigit(c))
    && (x.kind == Op && (x.val == ">" || x.val == "<") ==> c != '=')
  }

  predicate AllSpace(s: string) { forall i | 0 <= i < |s| :: IsSpace(s[i]) }

  /** The text of `p` with `gaps[i]` before lexeme `i` and the last gap at the end. */
  function Render(p: seq<Lexeme>, gaps: seq<string>): string
    requires |gaps| == |p| + 1
  {
    if p == [] then gaps[0] else gaps[0] + (Spelling(p[0]) + Render(p[1..], gaps[1..]))
  }

  /** The gaps are white space, and where one is empty the lexemes on its two
      sides do not run together. */
  predicate IsLayout(p: seq<Lexeme>, gaps: seq<string>) {
    && |gaps| == |p| + 1
    && AllSpace(gaps[0])
    && (p != [] ==>
          && IsLayout(p[1..], gaps[1..])
          && var rest := Render(p[1..], gaps[1..]);
             rest == "" || CanFollow(p[0], rest[0]))
  }

  /** The tokens of a layout that starts at offset `pos`. */
  function Place(p: seq<Lexeme>, gaps: seq<string>, pos: nat): seq<Token>
    requires |gaps| == |p| + 1
  {
    var at := pos + |gaps[0]|;
    if p == [] then [Token(EOF, "", at)]
    else [Token(p[0].kind, p[0].val, at)] + Place(p[1..], gaps[1..], at + |Spelling(p[0])|)
  }

  // ---- one lexeme ---------------------------------------------------------------

  lemma {:induction false} MagicLenOf(w: string, rest: string)
    requires forall i | 0 <= i < |w| :: IsMagicChar(w[i])
    requires rest == "" || !IsMagicChar(rest[0])
    ensures MagicLen(w + rest) == |w|
  {
    if w == "" {
      assert w + rest == rest;
    } else {
      assert (w + rest)[1..] == w[1..] + rest;
      MagicLenOf(w[1..], rest);
    }
  }

  lemma {:induction false} StringBodyOf(v: string, rest: string)
    ensures StringBody(Escape(v) + ("'" + rest), '\'') == Some((v, |Escape(v)| + 1))
  {
    var s := Escape(v) + ("'" + rest);
    if v == "" {
      assert s == "'" + rest;
    } else {
      var tail := Escape(v[1..]) + ("'" + rest);
      StringBodyOf(v[1..], rest);
      assert [v[0]] + v[1..] == v;
      if v[0] == '\'' || v[0] == '\\' {
        assert s[2..] == tail;
      } else {
        assert s[1..] == tail;
      }
    }
  }

  lemma {:induction false} StepWord(w: string, rest: string, pos: nat)
    requires IsWord(w) && (rest == "" || !IsIdentCont(rest[0]))
    ensures Step(w + rest, pos) == Ok((Some(WordToken(w, pos)), |w|))
  {
    hide WordToken, PunctStep, QuotedStep, MagicStep;
    IdentLenOf(w, rest);
    assert (w + rest)[..|w|] == w;
  }

  lemma {:induction false} StepMagic(w: string, rest: string, pos: nat)
    requires w in MAGIC_NAMES && (rest == "" || !IsMagicChar(rest[0]))
    ensures Step(w + rest, pos) == Ok((Some(Token(Magic, w, pos)), |w|))
  {
    hide WordToken, PunctStep, QuotedStep, NumberToken;
    assert w[0] == '@' && forall i | 1 <= i < |w| :: IsMagicChar(w[i]);
    assert (w + rest)[1..] == w[1..] + rest;
    MagicLenOf(w[1..], rest);
    assert (w + rest)[..|w|] == w;
  }

  lemma {:induction false} StepString(v: string, rest: string, pos: nat)
    ensures var s := "'" + Escape(v) + "'";
            Step(s + rest, pos) == Ok((Some(Token(Str, v, pos)), |s|))
  {
    hide WordToken, PunctStep, MagicStep, NumberToken;
    var s := "'" + Escape(v) + "'";
    assert (s + rest)[1..] == Escape(v) + ("'" + rest);
    StringBodyOf(v, rest);
  }

  lemma {:induction false} StepNumber(w: string, rest: string, pos: nat)
    requires w != "" && IsDigit(w[0])
    ensures Step(w + rest, pos)
         == var (t, n) := NumberToken(w + rest, pos);
            Ok((Some(t), n))
  {
    hide WordToken, PunctStep, MagicStep, NumberToken, QuotedStep;
  }

  lemma {:induction false} StepInt(w: string, rest: string, pos: nat)
    requires w != "" && AllDigits(w) && (rest == "" || (!IsDigit(rest[0]) && rest[0] != '.'))
    ensures Step(w + rest, pos) == Ok((Some(Token(Int, w, pos)), |w|))
  {
    hide Step;
    StepNumber(w, rest, pos);
    DigitsLenAll(w, rest);
    assert (w + rest)[..|w|] == w;
    assert |rest| > 0 ==> (w + rest)[|w|] == rest[0];
  }

  lemma {:induction false} NumberTokenOf(a: string, b: string, rest: string, pos: nat)
    requires a != "" && AllDigits(a) && AllDigits(b) && (rest == "" || !IsDigit(rest[0]))
    ensures NumberToken(a + ("." + (b + rest)), pos) == (Token(Float, a + ("." + b), pos), |a| + 1 + |b|)
  {
    var s := a + ("." + (b + rest));
    DigitsLenAll(a, "." + (b + rest));
    assert s[|a| + 1..] == b + rest;
    DigitsLenAll(b, rest);
    assert s[..|a| + 1 + |b|] == a + ("." + b);
  }

  lemma {:induction false} StepFloat(w: string, rest: string, pos: nat)
    requires IsFloatText(w) && (rest == "" || !IsDigit(rest[0]))
    ensures Step(w + rest, pos) == Ok((Some(Token(Float, w, pos)), |w|))
  {
    hide Step, NumberToken;
    StepNumber(w, rest, pos);
    var n := DigitsLen(w);
    var a, b := w[..n], w[n + 1..];
    assert w == a + ("." + b);
    assert w + rest == a + ("." + (b + rest));
    NumberTokenOf(a, b, rest, pos);
  }

  lemma {:induction false} StepPunct(x: Lexeme, rest: string, pos: nat)
    requires Lexical(x) && (rest == "" || CanFollow(x, rest[0]))
    requires x.kind in {LParen, RParen, Comma, Dot, AndAnd, OrOr, Op}
    ensures Step(x.val + rest, pos) == Ok((Some(Token(x.kind, x.val, pos)), |x.val|))
  {
    hide WordToken, MagicStep, NumberToken, QuotedStep;
    var s := x.val + rest;
    assert s[0] == x.val[0] && (|x.val| == 2 ==> s[1] == x.val[1]);
    assert rest != "" && |x.val| == 1 ==> s[1] == rest[0];
  }

  lemma {:induction false} KeywordTokens(x: Lexeme, pos: nat)
    requires Lexical(x) && IsWordKind(x.kind)
    ensures IsWord(x.val) && WordToken(x.val, pos) == Token(x.kind, x.val, pos)
  {
    hide ToLower;
    LowerIs("true", "true");
    LowerIs("false", "false");
    LowerIs("null", "null");
    LowerIs("IN", "in");
    LowerIs("IS", "is");
    LowerIs("NOT", "not");
    LowerIs("BETWEEN", "between");
  }

  lemma {:induction false} SpellingStarts(x: Lexeme)
    requires Lexical(x)
    ensures Spelling(x) != "" && !IsSpace(Spelling(x)[0])
  {
  }

  /** The lexer reads a spelled lexeme back, whatever follows it legally. */
  lemma {:induction false} StepReads(x: Lexeme, rest: string, pos: nat)
    requires Lexical(x) && (rest == "" || CanFollow(x, rest[0]))
    ensures Spelling(x) != ""
    ensures Step(Spelling(x) + rest, pos) == Ok((Some(Token(x.kind, x.val, pos)), |Spelling(x)|))
  {
    hide Step;
    SpellingStarts(x);
    if IsWordKind(x.kind) {
      hide WordToken;
      KeywordTokens(x, pos);
      StepWord(x.val, rest, pos);
    } else if x.kind == Magic {
      StepMagic(x.val, rest, pos);
    } else if x.kind == Str {
      StepString(x.val, rest, pos);
    } else if x.kind == Int {
      StepInt(x.val, rest, pos);
    } else if x.kind == Float {
      StepFloat(x.val, rest, pos);
    } else {
      StepPunct(x, rest, pos);
    }
  }

  lemma {:induction false} SpacesSkip(gap: string, rest: string, pos: nat)
    requires AllSpace(gap)
    ensures LexFrom(gap + rest, pos) == LexFrom(rest, pos + |gap|)
  {
    if gap == "" {
      assert gap + rest == rest;
    } else {
      var s := gap + rest;
      assert s[1..] == gap[1..] + rest;
      SpacesSkip(gap[1..], rest, pos + 1);
      assert Step(s, pos) == Ok((None, 1));
      var tail := LexFrom(s[1..], pos + 1);
      if tail.Ok? {
        assert Emit(None) + tail.value == tail.value;
      }
    }
  }

  /** Lexing undoes rendering. */
  lemma {:induction false} LexUndoesRender(p: seq<Lexeme>, gaps: seq<string>, pos: nat)
    requires IsLayout(p, gaps) && forall x | x in p :: Lexical(x)
    ensures LexFrom(Render(p, gaps), pos) == Ok(Place(p, gaps, pos))
    decreases |p|
  {
    hide Step, Lexical, CanFollow, Spelling;
    var at := pos + |gaps[0]|;
    if p == [] {
      SpacesSkip(gaps[0], "", pos);
      assert gaps[0] + "" == gaps[0];
    } else {
      var rest := Render(p[1..], gaps[1..]);
      var s := Spelling(p[0]) + rest;
      SpacesSkip(gaps[0], s, pos);
      StepReads(p[0], rest, at);
      assert s[|Spelling(p[0])|..] == rest;
      LexUndoesRender(p[1..], gaps[1..], at + |Spelling(p[0])|);
    }
  }

  lemma {:induction false} PlaceShows(p: seq<Lexeme>, gaps: seq<string>, pos: nat)
    requires |gaps| == |p| + 1
    ensures |Place(p, gaps, pos)| == |p| + 1
    ensures Shows(Place(p, gaps, pos), 0, p)
    ensures Place(p, gaps, pos)[|p|].kind == EOF
    decreases |p|
  {
    if p != [] {
      var at := pos + |gaps[0]|;
      PlaceShows(p[1..], gaps[1..], at + |Spelling(p[0])|);
    }
  }

  // ---- printed lexemes are lexical ------------------------------------------------

  predicate AllLexical(p: seq<Lexeme>) { forall x | x in p :: Lexical(x) }

  lemma {:induction false} PathLexical(path: seq<string>)
    requires path != [] && forall s | s in path :: IsName(s)
    ensures AllLexical(PrintPath(path))
  {
    if |path| > 1 {
      PathLexical(path[1..]);
    }
  }

  lemma {:induction false} FloatTextShape(m: nat, k: nat)
    ensures IsFloatText(FloatText(m, k))
  {
    FloatParses(m, k);
  }

  lemma {:induction false} LeafLexical(n: Node)
    requires IsLeaf(n) && WellFormed(n)
    ensures AllLexical(PrintLeaf(n))
  {
    if n.Ident? {
      hide Lexical;
      PathLexical(if n.dottedPath == "" then [n.name] else Split(n.dottedPath, '.'));
    } else {
      hide AllLexical;
      LiteralLexical(n);
      OneLexical(PrintLeaf(n)[0]);
    }
  }

  lemma OneLexical(x: Lexeme)
    requires Lexical(x)
    ensures AllLexical([x])
  {
    hide Lexical;
  }

  lemma {:induction false} LiteralLexical(n: Node)
    requires IsLeaf(n) && WellFormed(n) && !n.Ident?
    ensures PrintLeaf(n) == [PrintLeaf(n)[0]] && Lexical(PrintLeaf(n)[0])
  {
    hide IsFloatText, FloatText, Split, IsName;
    if n.FloatLit? { FloatTextShape(n.mant, n.scale); }
  }

  lemma {:induction false} BodyLexical(n: Node)
    requires WellFormed(n)
    ensures AllLexical(Body(n))
    decreases n, 0
  {
    hide WellFormed, Body, Print, PrintItems, PrintLeaf, Lexical;
    FixedLexical();
    WellFormedParts(n);
    if IsLeaf(n) {
      LeafIs(n);
      LeafLexical(n);
    } else if n.Or? || n.And? {
      ConnectiveIs(n);
      PrintLexical(n.l, Level(n));
      PrintLexical(n.r, Level(n) + 1);
    } else if n.In? {
      InIs(n);
      PrintLexical(n.target, 4);
      ItemsLexical(n.items);
    } else if n.Between? {
      BetweenIs(n);
      PrintLexical(n.target, 4);
      PrintLexical(n.lo, 4);
      PrintLexical(n.hi, 4);
    } else {
      ComparisonIs(n);
      PrintLexical(if n.Compare? then n.l else n.target, 4);
      if n.Compare? {
        OpLexical(n);
        PrintLexical(n.r, 4);
      }
    }
  }

  lemma {:induction false} OpLexical(n: Node)
    requires n.Compare? && WellFormed(n)
    ensures Lexical(Lexeme(Op, n.op))
  {
  }

  lemma {:induction false} FixedLexical()
    ensures Lexical(AND_WORD) && Lexical(OROR) && Lexical(ANDAND) && Lexical(IN_KW) && Lexical(BETWEEN_KW)
    ensures Lexical(IS_KW) && Lexical(NOT_KW) && Lexical(NULL_KW)
    ensures Lexical(LPAREN) && Lexical(RPAREN) && Lexical(COMMA)
  {
    LowerIs("AND", "and");
  }

  lemma {:induction false} PrintLexical(n: Node, level: nat)
    requires WellFormed(n)
    ensures AllLexical(Print(n, level))
    decreases n, 1
  {
    hide WellFormed, Body, Lexical;
    FixedLexical();
    BodyLexical(n);
  }

  lemma {:induction false} ItemsLexical(items: seq<Node>)
    requires items != [] && forall x | x in items :: WellFormed(x)
    ensures AllLexical(PrintItems(items))
    decreases items
  {
    hide WellFormed, Print, Lexical;
    FixedLexical();
    PrintLexical(items[0], 4);
    if |items| > 1 {
      ItemsLexical(items[1..]);
    }
  }

  // ---- the round trip ---------------------------------------------------------------

  /** Parsing undoes printing, for every layout of the printed text. */
  lemma {:induction false} ParseUndoesPrint(n: Node, gaps: seq<string>)
    requires WellFormed(n) && IsLayout(Print(n, 1), gaps)
    ensures ParseSource(Render(Print(n, 1), gaps)) == Ok(n)
  {
    hide Print, WellFormed, LexFrom, OrFrom, Render;
    var p := Print(n, 1);
    PrintLexical(n, 1);
    LexUndoesRender(p, gaps, 0);
    PlaceShows(p, gaps, 0);
    var toks := Place(p, gaps, 0);
    PrintParses(n, 1, toks, 0);
    assert OrTail(toks, |p|, n) == Ok((n, |p|));
  }

  /** One blank around every lexeme is a layout, so every tree has a source. */
  function Spaced(count: nat): seq<string> {
    seq(count + 1, i => " ")
  }

  lemma {:induction false} SpacedIsLayout(p: seq<Lexeme>)
    ensures IsLayout(p, Spaced(|p|))
  {
    if p != [] {
      SpacedIsLayout(p[1..]);
      assert Spaced(|p|)[1..] == Spaced(|p[1..]|);
      assert Render(p[1..], Spaced(|p[1..]|))[0] == ' ';
    }
  }

  function PrintText(n: Node): string {
    Render(Print(n, 1), Spaced(|Print(n, 1)|))
  }

  lemma {:induction false} PrintTextParses(n: Node)
    requires WellFormed(n)
    ensures ParseSource(PrintText(n)) == Ok(n)
  {
    SpacedIsLayout(Print(n, 1));
    ParseUndoesPrint(n, Spaced(|Print(n, 1)|));
  }
}
