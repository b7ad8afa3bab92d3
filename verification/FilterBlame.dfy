/** Where the parser puts the blame: what stands before the blamed token begins a
    phrase of the grammar. */
module FilterBlame {
  import opened Text
  import opened FilterAst
  import opened FilterLexer
  import opened FilterParser
  import opened FilterPrinter
  import opened FilterAccepted
  import opened FilterGrammar

  /** A token list as the lexer makes it: valid tokens, one end, at the end. */
  ghost predicate Proper(toks: seq<Token>) {
    && ValidTokens(toks) && toks != [] && toks[|toks| - 1].kind == EOF
    && forall i | 0 <= i < |toks| - 1 :: toks[i].kind != EOF
  }

  /** From `i`, the first `n` lexemes of `y` are there. */
  ghost predicate Begun(toks: seq<Token>, i: nat, y: seq<Lexeme>, n: nat) { n <= |y| && Shows(toks, i, y[..n]) }

  lemma BegunLeft(toks: seq<Token>, i: nat, a: seq<Lexeme>, b: seq<Lexeme>, n: nat)
    requires Begun(toks, i, a, n)
    ensures Begun(toks, i, a + b, n)
  {
    assert (a + b)[..n] == a[..n];
  }

  lemma BegunRight(toks: seq<Token>, i: nat, a: seq<Lexeme>, b: seq<Lexeme>, n: nat)
    requires Shows(toks, i, a) && Begun(toks, i + |a|, b, n)
    ensures Begun(toks, i, a + b, |a| + n)
  {
    hide Shows;
    assert (a + b)[..|a| + n] == a + b[..n];
    ShowsJoin(toks, i, a, b[..n]);
  }

  lemma BegunAll(toks: seq<Token>, i: nat, a: seq<Lexeme>, b: seq<Lexeme>)
    requires Shows(toks, i, a)
    ensures Begun(toks, i, a + b, |a|)
  {
    assert (a + b)[..|a|] == a;
  }

  lemma BegunNot(toks: seq<Token>, i: nat, y: seq<Lexeme>)
    requires i <= |toks|
    ensures Begun(toks, i, y, 0)
  {
  }

  lemma Inside(toks: seq<Token>, i: nat)
    requires Proper(toks) && i < |toks| && toks[i].kind != EOF
    ensures i + 1 < |toks|
  {
  }

  lemma AtEnd(toks: seq<Token>, i: nat)
    requires Proper(toks) && i < |toks|
    ensures PeekAt(toks, i) == toks[i] && (toks[i].kind != EOF ==> i + 1 < |toks|)
  {
  }

  /** How far the tokens before the blamed one go; an empty IN list is blamed on the token after it. */
  function Sound(e: PositionedError, k: nat): nat { if e.reason == EmptyInList && k > 0 then k - 1 else k }

  /** The reason given fits the blamed token. */
  predicate Fits(reason: Reason, t: Token) {
    match reason
    case UnexpectedEnd => t.kind == EOF
    case UnexpectedToken => t.kind !in {EOF, LParen, Name, Magic, Str, Int, Float, Bool, Null}
    case ExpectedRParen => t.kind != RParen
    case ExpectedLParen => t.kind != LParen
    case ExpectedNull => t.kind != Null
    case ExpectedSegment => t.kind != Name
    case ExpectedBetweenAnd => !IsAndWord(t)
    case ExpectedCommaOrRParen => t.kind != Comma && t.kind != RParen
    case BadInteger => t.kind == Int
    case BadFloat => t.kind == Float
    case EmptyInList => true
    case _ => false
  }

  /** The error is at token `k`, and what stands before it from `i` begins the phrase. */
  ghost predicate Blames(e: PositionedError, toks: seq<Token>, i: nat, k: nat, p: Phrase, level: nat) {
    && i <= k < |toks| && e.pos == toks[k].pos && Fits(e.reason, toks[k]) && Derives(p, level)
    && i <= Sound(e, k) && Begun(toks, i, Yield(p), Sound(e, k) - i)
  }

  lemma BlamesWeaker(e: PositionedError, toks: seq<Token>, i: nat, k: nat, p: Phrase, tight: nat, level: nat)
    requires Blames(e, toks, i, k, p, tight) && level <= tight
    ensures Blames(e, toks, i, k, p, level)
  {
    Weaker(p, tight, level);
  }

  /** An error inside the part `b` after `a`. */
  lemma BlamesAfter(e: PositionedError, toks: seq<Token>, i: nat, a: seq<Lexeme>,
                    k: nat, b: Phrase, level: nat, y: seq<Lexeme>)
    requires Shows(toks, i, a) && Blames(e, toks, i + |a|, k, b, level)
    ensures i <= Sound(e, k) && Begun(toks, i, a + (Yield(b) + y), Sound(e, k) - i)
  {
    hide Shows, Yield, Derives;
    BegunLeft(toks, i + |a|, Yield(b), y, Sound(e, k) - i - |a|);
    BegunRight(toks, i, a, Yield(b) + y, Sound(e, k) - i - |a|);
  }

  // ---- blame --------------------------------------------------------------------------

  lemma {:induction false} PathBlame(toks: seq<Token>, i: nat, names: seq<string>) returns (k: nat, more: seq<string>)
    requires Proper(toks) && i < |toks| && names != [] && Segments(toks, i, names).Err?
    ensures i <= k < |toks| && Segments(toks, i, names).error == PositionedError(toks[k].pos, ExpectedSegment)
    ensures toks[k].kind != Name
    ensures names <= more && k == i + 1 + 2 * (|more| - |names|) && Dotted(toks, i, more[|names|..])
    ensures PeekAt(toks, k - 1).kind == Dot
    decreases |toks| - i
  {
    hide ValidTokens;
    AtEnd(toks, i);
    AtEnd(toks, i + 1);
    var seg := toks[i + 1];
    if seg.kind != Name {
      k, more := i + 1, names;
    } else {
      k, more := PathBlame(toks, i + 2, names + [seg.val]);
      assert more[|names|..] == [seg.val] + more[|names| + 1..];
    }
  }

  lemma {:induction false} PathBegun(toks: seq<Token>, i: nat, names: seq<string>, x: string)
    requires names != [] && ValidTokens(toks) && PeekAt(toks, i).kind == Name && PeekAt(toks, i).val == names[0]
    requires Dotted(toks, i + 1, names[1..]) && PeekAt(toks, i + 2 * |names| - 1).kind == Dot
    ensures Begun(toks, i, PrintPath(names + [x]), 2 * |names|)
    decreases |names|
  {
    hide Shows, ValidTokens;
    ShowsOne(toks, i, Lexeme(Name, names[0]));
    FixedShows(toks, i + 1, DOT);
    ShowsJoin(toks, i, [Lexeme(Name, names[0])], [DOT]);
    assert [Lexeme(Name, names[0])] + [DOT] == [Lexeme(Name, names[0]), DOT];
    var tail := (names + [x])[1..];
    assert tail == names[1..] + [x];
    if |names| == 1 {
      BegunAll(toks, i, [Lexeme(Name, names[0]), DOT], PrintPath(tail));
    } else {
      PathBegun(toks, i + 2, names[1..], x);
      BegunRight(toks, i, [Lexeme(Name, names[0]), DOT], PrintPath(tail), 2 * |names| - 2);
    }
  }

  lemma {:induction false} OperandBlame(toks: seq<Token>, i: nat) returns (k: nat, p: Phrase)
    requires Proper(toks) && i < |toks| && PrimaryFrom(toks, i).Err?
    ensures Blames(PrimaryFrom(toks, i).error, toks, i, k, p, 4)
    decreases |toks| - i, 0
  {
    hide OrFrom, Shows, Segments, FloatNode, IntNode, ValidTokens, Yield, Derives;
    var t := toks[i];
    AtEnd(toks, i);
    var e := PrimaryFrom(toks, i).error;
    if t.kind == LParen {
      k, p := ParenBlame(toks, i);
    } else if t.kind == Name {
      var names: seq<string>;
      k, names := PathBlame(toks, i + 1, [t.val]);
      p := Path(names + ["x"]);
      PathDerives(names, "x");
      PathBegun(toks, i, names, "x");
    } else {
      k, p := i, Nothing;
      NothingDerives();
      BegunNot(toks, i, Yield(Nothing));
    }
  }

  lemma NothingDerives()
    ensures Derives(Nothing, 4)
  {
  }

  lemma PathDerives(names: seq<string>, x: string)
    ensures Derives(Path(names + [x]), 4) && Yield(Path(names + [x])) == PrintPath(names + [x])
  {
    hide PrintPath;
  }

  lemma {:induction false} ParenBlame(toks: seq<Token>, i: nat) returns (k: nat, p: Phrase)
    requires Proper(toks) && i < |toks| && toks[i].kind == LParen && PrimaryFrom(toks, i).Err?
    ensures Blames(PrimaryFrom(toks, i).error, toks, i, k, p, 4)
    decreases |toks| - i, 0, 0
  {
    hide OrFrom, Shows, ValidTokens, Yield, Derives, Denoted;
    AtEnd(toks, i);
    FixedShows(toks, i, LPAREN);
    var r := OrFrom(toks, i + 1);
    if r.Err? {
      var a: Phrase;
      k, a := OrBlame(toks, i + 1);
      p := Paren(a);
      ParenParts(p);
      BlamesAfter(r.error, toks, i, [LPAREN], k, a, 1, [RPAREN] + []);
    } else {
      var a := OrRead(toks, i + 1);
      p := Paren(a);
      ParenParts(p);
      k := r.value.1;
      YieldInside(toks, i + 1, a);
      ShowsJoin(toks, i, [LPAREN], Yield(a));
      BegunAll(toks, i, [LPAREN] + Yield(a), [RPAREN] + []);
      assert [LPAREN] + Yield(a) + ([RPAREN] + []) == [LPAREN] + (Yield(a) + ([RPAREN] + []));
    }
  }

  /** A phrase that was read stops before the end. */
  lemma {:induction false} YieldInside(toks: seq<Token>, i: nat, p: Phrase)
    requires Proper(toks) && i < |toks| && Shows(toks, i, Yield(p))
    ensures i + |Yield(p)| < |toks|
  {
    YieldEndless(p);
    ShownInside(toks, i, Yield(p));
  }

  lemma ShownInside(toks: seq<Token>, i: nat, y: seq<Lexeme>)
    requires Proper(toks) && i < |toks| && Shows(toks, i, y) && Endless(y)
    ensures i + |y| < |toks|
  {
  }

  lemma {:induction false} ItemsBlame(toks: seq<Token>, i: nat, before: seq<Node>) returns (k: nat, items: seq<Phrase>)
    requires Proper(toks) && i < |toks| && Items(toks, i, before).Err?
    ensures var e := Items(toks, i, before).error;
            && i <= k < |toks| && e.pos == toks[k].pos && Fits(e.reason, toks[k]) && i <= Sound(e, k)
            && items != [] && (forall x | x in items :: Derives(x, 4))
            && Begun(toks, i, YieldAll(items), Sound(e, k) - i)
    decreases |toks| - i, 1
  {
    hide PrimaryFrom, Shows, ValidTokens, Yield, Denoted, Derives, YieldAll, DenotedAll;
    var r := PrimaryFrom(toks, i);
    if r.Err? {
      var a: Phrase;
      k, a := OperandBlame(toks, i);
      items := [a];
      ListParts(items);
    } else {
      var a := OperandRead(toks, i);
      var j := r.value.1;
      YieldInside(toks, i, a);
      AtEnd(toks, j);
      var rest: seq<Phrase>;
      k, rest := ItemsBlame(toks, j + 1, before + [r.value.0]);
      items := [a] + rest;
      assert items[1..] == rest;
      ListParts(items);
      FixedShows(toks, j, COMMA);
      ShowsJoin(toks, i, Yield(a), [COMMA]);
      var e := Items(toks, i, before).error;
      BegunRight(toks, i, Yield(a) + [COMMA], YieldAll(rest), Sound(e, k) - j - 1);
      assert Yield(a) + [COMMA] + YieldAll(rest) == Yield(a) + ([COMMA] + YieldAll(rest));
    }
  }

  lemma {:induction false} TestBlame(toks: seq<Token>, i: nat) returns (k: nat, p: Phrase)
    requires Proper(toks) && i < |toks| && CompareFrom(toks, i).Err?
    ensures Blames(CompareFrom(toks, i).error, toks, i, k, p, 3)
    decreases |toks| - i, 3
  {
    hide PrimaryFrom, CompareTail, Shows, ValidTokens, Yield, Derives, Denoted;
    var r := PrimaryFrom(toks, i);
    if r.Err? {
      k, p := OperandBlame(toks, i);
      BlamesWeaker(r.error, toks, i, k, p, 4, 3);
    } else {
      var a := OperandRead(toks, i);
      var (left, j) := r.value;
      YieldInside(toks, i, a);
      AtEnd(toks, j);
      TailKind(toks, j, left);
      match toks[j].kind {
        case Op => k, p := RelationBlame(toks, i, a, left, j);
        case BetweenKw => k, p := WithinBlame(toks, i, a, left, j);
        case InKw => k, p := MemberBlame(toks, i, a, left, j);
        case IsKw => k, p := NullTestBlame(toks, i, a, left, j);
      }
    }
  }

  lemma TailKind(toks: seq<Token>, j: nat, left: Node)
    requires j < |toks| && CompareTail(toks, j, left).Err?
    ensures toks[j].kind in {Op, BetweenKw, InKw, IsKw}
  {
    hide PrimaryFrom, Items;
  }

  lemma {:induction false} RelationBlame(toks: seq<Token>, i: nat, a: Phrase, left: Node, j: nat)
    returns (k: nat, p: Phrase)
    requires Proper(toks) && i < j < |toks| && toks[j].kind == Op
    requires Reads(a, 4, left, toks, i, j) && CompareTail(toks, j, left).Err?
    ensures Blames(CompareTail(toks, j, left).error, toks, i, k, p, 3)
    decreases |toks| - i, 2
  {
    hide PrimaryFrom, Items, Shows, ValidTokens, Yield, Derives, Denoted;
    AtEnd(toks, j);
    var op := Lexeme(Op, toks[j].val);
    var b: Phrase;
    k, b := OperandBlame(toks, j + 1);
    p := Relation(toks[j].val, a, b);
    RelationParts(p);
    ShowsOne(toks, j, op);
    ShowsJoin(toks, i, Yield(a), [op]);
    BlamesAfter(PrimaryFrom(toks, j + 1).error, toks, i, Yield(a) + [op], k, b, 4, []);
    assert Yield(a) + [op] + (Yield(b) + []) == Yield(a) + ([op] + Yield(b));
  }

  const AND_TEXT := "AND"

  lemma AndText()
    ensures ToLower(AND_TEXT) == "and"
  {
    LowerIs("AND", "and");
  }

  lemma {:induction false} WithinBlame(toks: seq<Token>, i: nat, a: Phrase, left: Node, j: nat)
    returns (k: nat, p: Phrase)
    requires Proper(toks) && i < j < |toks| && toks[j].kind == BetweenKw
    requires Reads(a, 4, left, toks, i, j) && CompareTail(toks, j, left).Err?
    ensures Blames(CompareTail(toks, j, left).error, toks, i, k, p, 3)
    decreases |toks| - i, 2
  {
    hide PrimaryFrom, Items, Shows, ValidTokens, Yield, Derives, Denoted, ToLower;
    AtEnd(toks, j);
    AndText();
    NothingDerives();
    FixedShows(toks, j, BETWEEN_KW);
    var head := Yield(a) + [BETWEEN_KW];
    ShowsJoin(toks, i, Yield(a), [BETWEEN_KW]);
    var r := PrimaryFrom(toks, j + 1);
    if r.Err? {
      var lo: Phrase;
      k, lo := OperandBlame(toks, j + 1);
      p := Within(a, lo, AND_TEXT, Nothing);
      WithinParts(p);
      var tail := [Lexeme(Name, AND_TEXT)] + Yield(Nothing);
      BlamesAfter(r.error, toks, i, head, k, lo, 4, tail);
      assert head + (Yield(lo) + tail) == Yield(a) + ([BETWEEN_KW] + (Yield(lo) + tail));
    } else {
      k, p := WithinRest(toks, i, a, left, j);
    }
  }

  lemma WithinError(toks: seq<Token>, j: nat, left: Node)
    requires j < |toks| && toks[j].kind == BetweenKw && CompareTail(toks, j, left).Err? && PrimaryFrom(toks, j + 1).Ok?
    ensures var m := PrimaryFrom(toks, j + 1).value.1;
            if IsAndWord(PeekAt(toks, m)) then
              m < |toks| && PrimaryFrom(toks, m + 1).Err?
              && CompareTail(toks, j, left).error == PrimaryFrom(toks, m + 1).error
            else CompareTail(toks, j, left).error == PositionedError(PeekAt(toks, m).pos, ExpectedBetweenAnd)
  {
    hide PrimaryFrom, ToLower;
  }

  lemma {:induction false} WithinRest(toks: seq<Token>, i: nat, a: Phrase, left: Node, j: nat)
    returns (k: nat, p: Phrase)
    requires Proper(toks) && i < j && j + 1 < |toks| && toks[j].kind == BetweenKw
    requires Reads(a, 4, left, toks, i, j) && CompareTail(toks, j, left).Err? && PrimaryFrom(toks, j + 1).Ok?
    requires Shows(toks, i, Yield(a) + [BETWEEN_KW])
    ensures Blames(CompareTail(toks, j, left).error, toks, i, k, p, 3)
    decreases |toks| - i, 2, 0
  {
    hide PrimaryFrom, Items, Shows, ValidTokens, Yield, Derives, Denoted, ToLower, CompareTail;
    WithinError(toks, j, left);
    var lo := OperandRead(toks, j + 1);
    var m := PrimaryFrom(toks, j + 1).value.1;
    YieldInside(toks, j + 1, lo);
    AtEnd(toks, m);
    var w, hi := AND_TEXT, Nothing;
    k := m;
    if IsAndWord(toks[m]) {
      w := toks[m].val;
      k, hi := OperandBlame(toks, m + 1);
      ShowsOne(toks, m, Lexeme(Name, w));
      BlamesAfter(PrimaryFrom(toks, m + 1).error, toks, m, [Lexeme(Name, w)], k, hi, 4, []);
      assert Yield(hi) + [] == Yield(hi);
    } else {
      AndText();
      NothingDerives();
      BegunNot(toks, m, [Lexeme(Name, w)] + Yield(hi));
    }
    p := Within(a, lo, w, hi);
    var n := Sound(CompareTail(toks, j, left).error, k) - m;
    WithinBegun(toks, i, a, lo, w, hi, n);
    WithinParts(p);
  }

  lemma {:induction false} WithinBegun(toks: seq<Token>, i: nat, a: Phrase, lo: Phrase, w: string, hi: Phrase, n: nat)
    requires var head := Yield(a) + [BETWEEN_KW];
             && Shows(toks, i, head) && Shows(toks, i + |head|, Yield(lo))
             && Begun(toks, i + |head| + |Yield(lo)|, [Lexeme(Name, w)] + Yield(hi), n)
    ensures Begun(toks, i, Yield(Within(a, lo, w, hi)), |Yield(a)| + 1 + |Yield(lo)| + n)
  {
    hide Shows, Yield, Derives, Denoted;
    var head, tail := Yield(a) + [BETWEEN_KW], [Lexeme(Name, w)] + Yield(hi);
    ShowsJoin(toks, i, head, Yield(lo));
    BegunRight(toks, i, head + Yield(lo), tail, n);
    WithinParts(Within(a, lo, w, hi));
    assert head + Yield(lo) + tail == Yield(a) + ([BETWEEN_KW] + (Yield(lo) + tail));
  }

  lemma {:induction false} MemberBlame(toks: seq<Token>, i: nat, a: Phrase, left: Node, j: nat)
    returns (k: nat, p: Phrase)
    requires Proper(toks) && i < j < |toks| && toks[j].kind == InKw
    requires Reads(a, 4, left, toks, i, j) && CompareTail(toks, j, left).Err?
    ensures Blames(CompareTail(toks, j, left).error, toks, i, k, p, 3)
    decreases |toks| - i, 2
  {
    hide PrimaryFrom, Items, Shows, ValidTokens, Yield, Derives, Denoted, YieldAll, DenotedAll;
    AtEnd(toks, j);
    AtEnd(toks, j + 1);
    NothingDerives();
    FixedShows(toks, j, IN_KW);
    var head := Yield(a) + [IN_KW];
    ShowsJoin(toks, i, Yield(a), [IN_KW]);
    if toks[j + 1].kind != LParen {
      k, p := j + 1, Member(a, [Nothing]);
      MemberParts(p);
      var tail := [LPAREN] + (YieldAll([Nothing]) + ([RPAREN] + []));
      BegunAll(toks, i, head, tail);
      assert head + tail == Yield(a) + ([IN_KW] + tail);
    } else {
      FixedShows(toks, j + 1, LPAREN);
      ShowsJoin(toks, i, head, [LPAREN]);
      k, p := ListBlame(toks, i, a, left, j);
    }
  }

  lemma {:induction false} ListBlame(toks: seq<Token>, i: nat, a: Phrase, left: Node, j: nat)
    returns (k: nat, p: Phrase)
    requires Proper(toks) && i < j && j + 2 < |toks| && toks[j].kind == InKw && toks[j + 1].kind == LParen
    requires Reads(a, 4, left, toks, i, j) && CompareTail(toks, j, left).Err?
    requires Shows(toks, i, Yield(a) + [IN_KW] + [LPAREN])
    ensures Blames(CompareTail(toks, j, left).error, toks, i, k, p, 3)
    decreases |toks| - i, 2, 0
  {
    hide PrimaryFrom, Items, Shows, ValidTokens, Yield, Derives, Denoted, YieldAll, DenotedAll;
    var head := Yield(a) + [IN_KW] + [LPAREN];
    var items: seq<Phrase>;
    k, items := InsideBlame(toks, j, left);
    p := Member(a, items);
    MemberParts(p);
    var tail := YieldAll(items) + ([RPAREN] + []);
    BegunRight(toks, i, head, tail, Sound(CompareTail(toks, j, left).error, k) - j - 2);
    assert head + tail == Yield(a) + ([IN_KW] + ([LPAREN] + tail));
  }

  lemma {:induction false} NoCommaLeft(toks: seq<Token>, i: nat, before: seq<Node>)
    requires i <= |toks| && Items(toks, i, before).Ok?
    ensures PeekAt(toks, Items(toks, i, before).value.1).kind != Comma
    decreases |toks| - i
  {
    hide PrimaryFrom;
    var (x, j) := PrimaryFrom(toks, i).value;
    if PeekAt(toks, j).kind == Comma { NoCommaLeft(toks, j + 1, before + [x]); }
  }

  /** Inside the parentheses of an IN list. */
  lemma {:induction false} InsideBlame(toks: seq<Token>, j: nat, left: Node) returns (k: nat, items: seq<Phrase>)
    requires Proper(toks) && j + 2 < |toks| && toks[j].kind == InKw && toks[j + 1].kind == LParen
    requires CompareTail(toks, j, left).Err?
    ensures var e := CompareTail(toks, j, left).error;
            && j + 2 <= k < |toks| && e.pos == toks[k].pos && Fits(e.reason, toks[k]) && j + 2 <= Sound(e, k)
            && items != [] && (forall x | x in items :: Derives(x, 4))
            && Begun(toks, j + 2, YieldAll(items) + ([RPAREN] + []), Sound(e, k) - j - 2)
    decreases |toks| - j, 1
  {
    hide PrimaryFrom, Items, Shows, ValidTokens, Yield, Derives, Denoted, YieldAll, DenotedAll;
    AtEnd(toks, j + 2);
    NothingDerives();
    var r := Items(toks, j + 2, []);
    if toks[j + 2].kind == RParen {
      k, items := j + 3, [Nothing];
      BegunNot(toks, j + 2, YieldAll(items) + ([RPAREN] + []));
    } else if r.Err? {
      k, items := ItemsBlame(toks, j + 2, []);
      BegunLeft(toks, j + 2, YieldAll(items), [RPAREN] + [], Sound(r.error, k) - j - 2);
    } else {
      items := ItemsRead(toks, j + 2, []);
      k := r.value.1;
      NoCommaLeft(toks, j + 2, []);
      ItemsEndless(items);
      ShownInside(toks, j + 2, YieldAll(items));
      BegunAll(toks, j + 2, YieldAll(items), [RPAREN] + []);
    }
  }

  lemma {:induction false} NullTestBlame(toks: seq<Token>, i: nat, a: Phrase, left: Node, j: nat)
    returns (k: nat, p: Phrase)
    requires Proper(toks) && i < j < |toks| && toks[j].kind == IsKw
    requires Reads(a, 4, left, toks, i, j) && CompareTail(toks, j, left).Err?
    ensures Blames(CompareTail(toks, j, left).error, toks, i, k, p, 3)
  {
    hide PrimaryFrom, Items, Shows, ValidTokens, Yield, Derives, Denoted;
    AtEnd(toks, j);
    AtEnd(toks, j + 1);
    var negate := toks[j + 1].kind == NotKw;
    p := NullTest(a, negate);
    NullTestParts(p);
    FixedShows(toks, j, IS_KW);
    var head := Yield(a) + [IS_KW];
    ShowsJoin(toks, i, Yield(a), [IS_KW]);
    if negate {
      FixedShows(toks, j + 1, NOT_KW);
      ShowsJoin(toks, i, head, [NOT_KW]);
      k := j + 2;
      BegunAll(toks, i, head + [NOT_KW], [NULL_KW] + []);
      assert head + [NOT_KW] + ([NULL_KW] + []) == Yield(a) + ([IS_KW] + ([NOT_KW] + ([NULL_KW] + [])));
    } else {
      k := j + 1;
      BegunAll(toks, i, head, [NULL_KW] + []);
      assert head + ([NULL_KW] + []) == Yield(a) + ([IS_KW] + ([NULL_KW] + []));
    }
  }

  lemma {:induction false} AndTailBlame(toks: seq<Token>, i: nat, j: nat, a: Phrase, left: Node)
    returns (k: nat, p: Phrase)
    requires Proper(toks) && i < j < |toks| && AndTail(toks, j, left).Err?
    requires Reads(a, 2, left, toks, i, j)
    ensures Blames(AndTail(toks, j, left).error, toks, i, k, p, 2)
    decreases |toks| - j, 4
  {
    hide CompareFrom, Shows, ValidTokens, Yield, Derives, Denoted;
    AtEnd(toks, j);
    FixedShows(toks, j, ANDAND);
    ShowsJoin(toks, i, Yield(a), [ANDAND]);
    var r := CompareFrom(toks, j + 1);
    if r.Err? {
      var b: Phrase;
      k, b := TestBlame(toks, j + 1);
      p := Both(a, b);
      ConnectiveParts(p);
      BlamesAfter(r.error, toks, i, Yield(a) + [ANDAND], k, b, 3, []);
      assert Yield(a) + [ANDAND] + (Yield(b) + []) == Yield(a) + ([ANDAND] + Yield(b));
    } else {
      var b := TestRead(toks, j + 1);
      var (right, m) := r.value;
      ConnectiveParts(Both(a, b));
      ShowsJoin(toks, i, Yield(a) + [ANDAND], Yield(b));
      assert Yield(a) + [ANDAND] + Yield(b) == Yield(a) + ([ANDAND] + Yield(b));
      YieldInside(toks, j + 1, b);
      k, p := AndTailBlame(toks, i, m, Both(a, b), And(left, right));
    }
  }

  lemma {:induction false} AndBlame(toks: seq<Token>, i: nat) returns (k: nat, p: Phrase)
    requires Proper(toks) && i < |toks| && AndFrom(toks, i).Err?
    ensures Blames(AndFrom(toks, i).error, toks, i, k, p, 2)
    decreases |toks| - i, 5
  {
    hide CompareFrom, AndTail, Shows, ValidTokens, Yield, Derives, Denoted;
    var r := CompareFrom(toks, i);
    if r.Err? {
      k, p := TestBlame(toks, i);
      BlamesWeaker(r.error, toks, i, k, p, 3, 2);
    } else {
      var a := TestRead(toks, i);
      Weaker(a, 3, 2);
      YieldInside(toks, i, a);
      k, p := AndTailBlame(toks, i, r.value.1, a, r.value.0);
    }
  }

  lemma {:induction false} OrTailBlame(toks: seq<Token>, i: nat, j: nat, a: Phrase, left: Node)
    returns (k: nat, p: Phrase)
    requires Proper(toks) && i < j < |toks| && OrTail(toks, j, left).Err?
    requires Reads(a, 1, left, toks, i, j)
    ensures Blames(OrTail(toks, j, left).error, toks, i, k, p, 1)
    decreases |toks| - j, 6
  {
    hide AndFrom, Shows, ValidTokens, Yield, Derives, Denoted;
    AtEnd(toks, j);
    FixedShows(toks, j, OROR);
    ShowsJoin(toks, i, Yield(a), [OROR]);
    var r := AndFrom(toks, j + 1);
    if r.Err? {
      var b: Phrase;
      k, b := AndBlame(toks, j + 1);
      p := Either(a, b);
      ConnectiveParts(p);
      BlamesAfter(r.error, toks, i, Yield(a) + [OROR], k, b, 2, []);
      assert Yield(a) + [OROR] + (Yield(b) + []) == Yield(a) + ([OROR] + Yield(b));
    } else {
      var b := AndRead(toks, j + 1);
      var (right, m) := r.value;
      ConnectiveParts(Either(a, b));
      ShowsJoin(toks, i, Yield(a) + [OROR], Yield(b));
      assert Yield(a) + [OROR] + Yield(b) == Yield(a) + ([OROR] + Yield(b));
      YieldInside(toks, j + 1, b);
      k, p := OrTailBlame(toks, i, m, Either(a, b), Or(left, right));
    }
  }

  lemma {:induction false} OrBlame(toks: seq<Token>, i: nat) returns (k: nat, p: Phrase)
    requires Proper(toks) && i < |toks| && OrFrom(toks, i).Err?
    ensures Blames(OrFrom(toks, i).error, toks, i, k, p, 1)
    decreases |toks| - i, 7
  {
    hide AndFrom, OrTail, Shows, ValidTokens, Yield, Derives, Denoted;
    var r := AndFrom(toks, i);
    if r.Err? {
      k, p := AndBlame(toks, i);
      BlamesWeaker(r.error, toks, i, k, p, 2, 1);
    } else {
      var a := AndRead(toks, i);
      Weaker(a, 2, 1);
      YieldInside(toks, i, a);
      k, p := OrTailBlame(toks, i, r.value.1, a, r.value.0);
    }
  }
}
