/** Every tree the parser returns is well formed, so printing what was parsed
    and parsing again gives the same tree. */
module FilterAccepted {
  import opened Text
  import opened FilterAst
  import opened FilterLexer
  import opened FilterParser
  import opened FilterPrinter
  import opened FilterRoundTrip

  predicate ValidToken(t: Token) { t.kind == EOF || Lexical(Lexeme(t.kind, t.val)) }

  predicate ValidTokens(toks: seq<Token>) { forall t | t in toks :: ValidToken(t) }

  // ---- the lexer only makes lexical tokens -------------------------------------

  lemma {:induction false} WordTokenValid(w: string, pos: nat)
    requires IsWord(w)
    ensures ValidToken(WordToken(w, pos))
  {
  }

  lemma {:induction false} NumberTokenValid(s: string, pos: nat)
    requires s != "" && IsDigit(s[0])
    ensures ValidToken(NumberToken(s, pos).0)
  {
    var n := DigitsLen(s);
    if n < |s| && s[n] == '.' {
      var k := DigitsLen(s[n + 1..]);
      var w := s[..n + 1 + k];
      assert w == s[..n] + ("." + s[n + 1..][..k]);
      DigitsLenAll(s[..n], "." + s[n + 1..][..k]);
      assert w[n + 1..] == s[n + 1..][..k];
    }
  }

  lemma {:induction false} PunctValid(s: string, pos: nat)
    requires s != "" && PunctStep(s, pos).Ok? && PunctStep(s, pos).value.0.Some?
    ensures ValidToken(PunctStep(s, pos).value.0.value)
  {
  }

  lemma {:induction false} StepValid(s: string, pos: nat)
    requires s != "" && Step(s, pos).Ok? && Step(s, pos).value.0.Some?
    ensures ValidToken(Step(s, pos).value.0.value)
  {
    hide PunctStep, WordToken, NumberToken;
    if IsDigit(s[0]) {
      NumberTokenValid(s, pos);
    } else if IsIdentStart(s[0]) {
      var n := IdentLen(s);
      assert n > 0 by { assert IsIdentCont(s[0]); }
      WordTokenValid(s[..n], pos);
    } else if s[0] != '\'' && s[0] != '"' && s[0] != '@' && !IsSpace(s[0]) {
      PunctValid(s, pos);
    }
  }

  lemma {:induction false} LexedValid(s: string, pos: nat)
    requires LexFrom(s, pos).Ok?
    ensures ValidTokens(LexFrom(s, pos).value)
    decreases |s|
  {
    hide Step, ValidToken;
    if s == "" {
      assert ValidToken(Token(EOF, "", pos)) by { EofValid(pos); }
    } else {
      var (t, n) := Step(s, pos).value;
      LexedValid(s[n..], pos + n);
      if t.Some? {
        StepValid(s, pos);
      }
    }
  }

  lemma {:induction false} EofValid(pos: nat)
    ensures ValidToken(Token(EOF, "", pos))
  {
  }

  // ---- the descent only builds well-formed trees ---------------------------------

  ghost predicate Good(r: Parsed) { r.Ok? ==> WellFormed(r.value.0) }

  lemma {:induction false} NoDotInName(s: string)
    requires IsName(s)
    ensures '.' !in s
  {
  }

  lemma {:induction false} JoinNonEmpty(path: seq<string>)
    requires |path| >= 2
    ensures Join(path, '.') != ""
  {
  }

  lemma {:induction false} SegmentsGood(toks: seq<Token>, i: nat, path: seq<string>)
    requires i <= |toks| && path != [] && ValidTokens(toks)
    requires forall s | s in path :: IsName(s)
    ensures Good(Segments(toks, i, path))
    decreases |toks| - i
  {
    if PeekAt(toks, i).kind != Dot {
      if |path| > 1 {
        forall s | s in path ensures '.' !in s { NoDotInName(s); }
        SplitJoin(path, '.');
        JoinNonEmpty(path);
      }
    } else {
      var seg := PeekAt(toks, i + 1);
      if seg.kind == Name {
        assert seg in toks && ValidToken(seg);
        SegmentsGood(toks, i + 2, path + [seg.val]);
      }
    }
  }

  lemma {:induction false} PrimaryGood(toks: seq<Token>, i: nat)
    requires i <= |toks| && ValidTokens(toks)
    ensures Good(PrimaryFrom(toks, i))
    decreases |toks| - i, 0
  {
    hide OrFrom, IntNode, FloatNode, Segments, WellFormed;
    var t := PeekAt(toks, i);
    if t.kind == LParen {
      OrGood(toks, i + 1);
    } else if t.kind == Name {
      assert t in toks && ValidToken(t);
      SegmentsGood(toks, i + 1, [t.val]);
    } else {
      assert i < |toks| ==> t in toks && ValidToken(t);
      LeafGood(t);
    }
  }

  lemma {:induction false} LeafGood(t: Token)
    ensures IntNode(t).Some? ==> WellFormed(IntNode(t).value)
    ensures FloatNode(t.val).Some? ==> WellFormed(FloatNode(t.val).value)
    ensures t.val in MAGIC_NAMES ==> WellFormed(MagicVar(t.val))
    ensures WellFormed(StringLit(t.val)) && WellFormed(BoolLit(t.val == "true")) && WellFormed(NullLit)
  {
  }

  lemma {:induction false} ItemsGood(toks: seq<Token>, i: nat, items: seq<Node>)
    requires i <= |toks| && ValidTokens(toks) && forall x | x in items :: WellFormed(x)
    ensures var r := Items(toks, i, items);
            r.Ok? ==> forall x | x in r.value.0 :: WellFormed(x)
    decreases |toks| - i, 1
  {
    hide PrimaryFrom, WellFormed;
    PrimaryGood(toks, i);
    var r := PrimaryFrom(toks, i);
    if r.Ok? && PeekAt(toks, r.value.1).kind == Comma {
      ItemsGood(toks, r.value.1 + 1, items + [r.value.0]);
    }
  }

  /** Building a node out of well-formed parts. */
  lemma {:induction false} Assemble(op: string, l: Node, m: Node, r: Node, items: seq<Node>)
    requires WellFormed(l) && WellFormed(m) && WellFormed(r) && forall x | x in items :: WellFormed(x)
    ensures WellFormed(Or(l, r)) && WellFormed(And(l, r)) && WellFormed(IsNull(l)) && WellFormed(IsNotNull(l))
    ensures op in COMPARE_OPS ==> WellFormed(Compare(op, l, r))
    ensures WellFormed(Between(l, m, r)) && (items != [] ==> WellFormed(In(l, items)))
  {
  }

  lemma {:induction false} TailGood(toks: seq<Token>, i: nat, left: Node)
    requires i <= |toks| && ValidTokens(toks) && WellFormed(left)
    ensures Good(CompareTail(toks, i, left))
    decreases |toks| - i, 2
  {
    hide PrimaryFrom, Items, WellFormed;
    var t := PeekAt(toks, i);
    assert i < |toks| ==> t in toks && ValidToken(t);
    Assemble(t.val, left, left, left, []);
    if t.kind == Op || t.kind == BetweenKw {
      PrimaryGood(toks, i + 1);
      var a := PrimaryFrom(toks, i + 1);
      if a.Ok? {
        Assemble(t.val, left, left, a.value.0, []);
        if t.kind == BetweenKw && IsAndWord(PeekAt(toks, a.value.1)) {
          PrimaryGood(toks, a.value.1 + 1);
          var b := PrimaryFrom(toks, a.value.1 + 1);
          if b.Ok? {
            Assemble(t.val, left, a.value.0, b.value.0, []);
          }
        }
      }
    } else if t.kind == InKw && PeekAt(toks, i + 1).kind == LParen && PeekAt(toks, i + 2).kind != RParen {
      ItemsGood(toks, i + 2, []);
      var a := Items(toks, i + 2, []);
      if a.Ok? {
        Assemble(t.val, left, left, left, a.value.0);
      }
    }
  }

  lemma {:induction false} CompareGood(toks: seq<Token>, i: nat)
    requires i <= |toks| && ValidTokens(toks)
    ensures Good(CompareFrom(toks, i))
    decreases |toks| - i, 3
  {
    hide PrimaryFrom, CompareTail, WellFormed;
    PrimaryGood(toks, i);
    var r := PrimaryFrom(toks, i);
    if r.Ok? {
      TailGood(toks, r.value.1, r.value.0);
    }
  }

  lemma {:induction false} AndTailGood(toks: seq<Token>, i: nat, left: Node)
    requires i <= |toks| && ValidTokens(toks) && WellFormed(left)
    ensures Good(AndTail(toks, i, left))
    decreases |toks| - i, 4
  {
    hide CompareFrom, WellFormed;
    if PeekAt(toks, i).kind == AndAnd {
      CompareGood(toks, i + 1);
      var r := CompareFrom(toks, i + 1);
      if r.Ok? {
        Assemble("", left, left, r.value.0, []);
        AndTailGood(toks, r.value.1, And(left, r.value.0));
      }
    }
  }

  lemma {:induction false} AndGood(toks: seq<Token>, i: nat)
    requires i <= |toks| && ValidTokens(toks)
    ensures Good(AndFrom(toks, i))
    decreases |toks| - i, 5
  {
    hide CompareFrom, AndTail, WellFormed;
    CompareGood(toks, i);
    var r := CompareFrom(toks, i);
    if r.Ok? {
      AndTailGood(toks, r.value.1, r.value.0);
    }
  }

  lemma {:induction false} OrTailGood(toks: seq<Token>, i: nat, left: Node)
    requires i <= |toks| && ValidTokens(toks) && WellFormed(left)
    ensures Good(OrTail(toks, i, left))
    decreases |toks| - i, 6
  {
    hide AndFrom, WellFormed;
    if PeekAt(toks, i).kind == OrOr {
      AndGood(toks, i + 1);
      var r := AndFrom(toks, i + 1);
      if r.Ok? {
        Assemble("", left, left, r.value.0, []);
        OrTailGood(toks, r.value.1, Or(left, r.value.0));
      }
    }
  }

  lemma {:induction false} OrGood(toks: seq<Token>, i: nat)
    requires i <= |toks| && ValidTokens(toks)
    ensures Good(OrFrom(toks, i))
    decreases |toks| - i, 7
  {
    hide AndFrom, OrTail, WellFormed;
    AndGood(toks, i);
    var r := AndFrom(toks, i);
    if r.Ok? {
      OrTailGood(toks, r.value.1, r.value.0);
    }
  }

  /** A tree is the denotation of some source exactly when it is well formed. */
  lemma {:induction false} AcceptedExactly(n: Node)
    ensures WellFormed(n) <==> exists src: string :: ParseSource(src) == Ok(n)
  {
    hide WellFormed, ParseSource;
    if WellFormed(n) {
      PrintTextParses(n);
    }
    if src: string :| ParseSource(src) == Ok(n) {
      ParsedWellFormed(src);
    }
  }

  lemma {:induction false} ParsedWellFormed(src: string)
    requires ParseSource(src).Ok?
    ensures WellFormed(ParseSource(src).value)
  {
    hide WellFormed, LexFrom, OrFrom;
    LexedValid(src, 0);
    OrGood(LexFrom(src, 0).value, 0);
  }

  /** Normal form: printing what a source parses to changes no meaning. */
  lemma {:induction false} Normalise(src: string)
    requires ParseSource(src).Ok?
    ensures ParseSource(PrintText(ParseSource(src).value)) == ParseSource(src)
  {
    hide WellFormed, ParseSource, PrintText;
    ParsedWellFormed(src);
    PrintTextParses(ParseSource(src).value);
  }
}
