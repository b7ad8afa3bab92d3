/** What a source may look like: keywords in any letter case, strings in either
    quote, any white space. The lexer accepts exactly these layouts, so the
    parser accepts exactly the layouts of the phrases of the grammar. */
module FilterSpelling {
  import opened Text
  import opened FilterAst
  import opened FilterLexer
  import opened FilterParser
  import opened FilterPrinter
  import opened FilterRoundTrip
  import opened FilterAccepted
  import opened FilterGrammar

  /** `body` between two quotes stands for `v`: the quote and the backslash come
      after a backslash, every other character stands for itself. */
  predicate Unescapes(body: string, quote: char, v: string) {
    if body == "" then v == ""
    else if body[0] == '\\' then
      && |body| > 1 && (body[1] == quote || body[1] == '\\') && v != "" && v[0] == body[1]
      && Unescapes(body[2..], quote, v[1..])
    else body[0] != quote && v != "" && v[0] == body[0] && Unescapes(body[1..], quote, v[1..])
  }

  predicate QuotedAs(w: string, quote: char, v: string) {
    |w| >= 2 && w[0] == quote && w[|w| - 1] == quote && Unescapes(w[1..|w| - 1], quote, v)
  }

  /** The texts of a lexeme. */
  predicate IsSpelling(x: Lexeme, w: string) {
    match x.kind
    case Str => QuotedAs(w, '\'', x.val) || QuotedAs(w, '"', x.val)
    case Bool => ToLower(w) == x.val
    case Null => ToLower(w) == "null"
    case InKw => ToLower(w) == "in"
    case BetweenKw => ToLower(w) == "between"
    case IsKw => ToLower(w) == "is"
    case NotKw => ToLower(w) == "not"
    case _ => w == x.val
  }

  /** The words of a source with a gap before each and one at the end. */
  function Written(words: seq<string>, gaps: seq<string>): string
    requires |gaps| == |words| + 1
  {
    if words == [] then gaps[0] else gaps[0] + (words[0] + Written(words[1..], gaps[1..]))
  }

  /** The words spell the lexemes, the gaps are white space, and no word runs into what follows it. */
  ghost predicate Spelled(p: seq<Lexeme>, words: seq<string>, gaps: seq<string>) {
    && |words| == |p| && |gaps| == |p| + 1 && AllSpace(gaps[0])
    && (p != [] ==>
          && Lexical(p[0]) && IsSpelling(p[0], words[0])
          && Spelled(p[1..], words[1..], gaps[1..])
          && var rest := Written(words[1..], gaps[1..]);
             rest == "" || CanFollow(p[0], rest[0]))
  }

  /** The tokens, each where its word stands. */
  function Placed(p: seq<Lexeme>, words: seq<string>, gaps: seq<string>, pos: nat): (toks: seq<Token>)
    requires |words| == |p| && |gaps| == |p| + 1
    ensures |toks| == |p| + 1
  {
    var at := pos + |gaps[0]|;
    if p == [] then [Token(EOF, "", at)]
    else [Token(p[0].kind, p[0].val, at)] + Placed(p[1..], words[1..], gaps[1..], at + |words[0]|)
  }

  // ---- spelled lexemes are read ---------------------------------------------------

  lemma {:induction false} BodyReads(body: string, quote: char, v: string, rest: string)
    requires Unescapes(body, quote, v) && quote != '\\'
    ensures StringBody(body + ([quote] + rest), quote) == Some((v, |body| + 1))
  {
    var s := body + ([quote] + rest);
    if body == "" {
      assert s == [quote] + rest;
    } else if body[0] == '\\' {
      BodyReads(body[2..], quote, v[1..], rest);
      assert s[2..] == body[2..] + ([quote] + rest) && [v[0]] + v[1..] == v;
    } else {
      BodyReads(body[1..], quote, v[1..], rest);
      assert s[1..] == body[1..] + ([quote] + rest) && [v[0]] + v[1..] == v;
    }
  }

  lemma {:induction false} QuotedReads(w: string, quote: char, v: string, rest: string, pos: nat)
    requires (quote == '\'' || quote == '"') && QuotedAs(w, quote, v)
    ensures Step(w + rest, pos) == Ok((Some(Token(Str, v, pos)), |w|))
  {
    hide WordToken, PunctStep, MagicStep, NumberToken, Unescapes;
    var body := w[1..|w| - 1];
    assert w == [quote] + (body + [quote]);
    assert (w + rest)[1..] == body + ([quote] + rest);
    BodyReads(body, quote, v, rest);
  }

  /** A word that folds to a keyword is one. */
  lemma {:induction false} FoldsToWord(w: string, k: string)
    requires ToLower(w) == k && k in KEYWORDS
    ensures IsWord(w)
  {
    hide ToLower;
    KeywordLetters(k);
    forall i | 0 <= i < |w| ensures IsIdentStart(w[i]) { assert ToLower(w)[i] == ToLowerChar(w[i]) == k[i]; }
  }

  lemma KeywordLetters(k: string)
    requires k in KEYWORDS
    ensures k != "" && forall i | 0 <= i < |k| :: 'a' <= k[i] <= 'z'
  {
  }

  lemma {:induction false} KeywordReads(x: Lexeme, w: string, pos: nat)
    requires Lexical(x) && IsSpelling(x, w) && IsWordKind(x.kind)
    ensures IsWord(w) && WordToken(w, pos) == Token(x.kind, x.val, pos)
  {
    hide ToLower, IsWord;
    if x.kind != Name {
      FoldsToWord(w, ToLower(w));
    } else {
      NameIsWord(w);
    }
  }

  lemma NameIsWord(w: string)
    requires IsName(w)
    ensures IsWord(w)
  {
  }

  lemma {:induction false} SpellingReads(x: Lexeme, w: string, rest: string, pos: nat)
    requires Lexical(x) && IsSpelling(x, w) && (rest == "" || CanFollow(x, rest[0]))
    ensures w != "" && Step(w + rest, pos) == Ok((Some(Token(x.kind, x.val, pos)), |w|))
  {
    hide Step, QuotedAs;
    if IsWordKind(x.kind) {
      hide WordToken;
      KeywordReads(x, w, pos);
      StepWord(w, rest, pos);
    } else if x.kind == Str {
      if QuotedAs(w, '\'', x.val) {
        QuotedReads(w, '\'', x.val, rest, pos);
      } else {
        QuotedReads(w, '"', x.val, rest, pos);
      }
      QuotedIsLong(w, x.val);
    } else {
      StepReads(x, rest, pos);
    }
  }

  lemma QuotedIsLong(w: string, v: string)
    requires QuotedAs(w, '\'', v) || QuotedAs(w, '"', v)
    ensures w != ""
  {
  }

  /** Lexing undoes writing. */
  lemma {:induction false} LexUndoesWriting(p: seq<Lexeme>, words: seq<string>, gaps: seq<string>, pos: nat)
    requires Spelled(p, words, gaps)
    ensures LexFrom(Written(words, gaps), pos) == Ok(Placed(p, words, gaps, pos))
    decreases |p|
  {
    hide Step, Lexical, CanFollow, IsSpelling, Spelled, Written, Placed, LexFrom;
    SpelledParts(p, words, gaps, pos);
    var at := pos + |gaps[0]|;
    if p == [] {
      SpacesSkip(gaps[0], "", pos);
      assert gaps[0] + "" == gaps[0];
      LexParts("", at);
    } else {
      var rest := Written(words[1..], gaps[1..]);
      var s := words[0] + rest;
      SpacesSkip(gaps[0], s, pos);
      SpellingReads(p[0], words[0], rest, at);
      assert s[|words[0]|..] == rest;
      LexParts(s, at);
      LexUndoesWriting(p[1..], words[1..], gaps[1..], at + |words[0]|);
    }
  }

  lemma SpelledParts(p: seq<Lexeme>, words: seq<string>, gaps: seq<string>, pos: nat)
    requires Spelled(p, words, gaps)
    ensures |words| == |p| && |gaps| == |p| + 1 && AllSpace(gaps[0])
    ensures p == [] ==>
              Written(words, gaps) == gaps[0] && Placed(p, words, gaps, pos) == [Token(EOF, "", pos + |gaps[0]|)]
    ensures p != [] ==>
              && Lexical(p[0]) && IsSpelling(p[0], words[0]) && Spelled(p[1..], words[1..], gaps[1..])
              && |words[1..]| == |p[1..]| && |gaps[1..]| == |p[1..]| + 1
              && var rest := Written(words[1..], gaps[1..]);
              && (rest == "" || CanFollow(p[0], rest[0])) && Written(words, gaps) == gaps[0] + (words[0] + rest)
              && Placed(p, words, gaps, pos) == [Token(p[0].kind, p[0].val, pos + |gaps[0]|)]
                 + Placed(p[1..], words[1..], gaps[1..], pos + |gaps[0]| + |words[0]|)
  {
    hide Lexical, CanFollow, IsSpelling;
  }

  lemma LexParts(s: string, pos: nat)
    ensures s == "" ==> LexFrom(s, pos) == Ok([Token(EOF, "", pos)])
    ensures s != "" && Step(s, pos).Ok? && Step(s, pos).value.0.Some? ==>
              var (t, n) := Step(s, pos).value;
              LexFrom(s[n..], pos + n).Ok? ==> LexFrom(s, pos) == Ok([t.value] + LexFrom(s[n..], pos + n).value)
  {
    hide Step;
  }

  // ---- what is read was spelled -------------------------------------------------------

  lemma {:induction false} BodyWasEscaped(s: string, quote: char)
    requires quote != '\\' && StringBody(s, quote).Some?
    ensures var (v, n) := StringBody(s, quote).value;
            s[n - 1] == quote && Unescapes(s[..n - 1], quote, v)
  {
    if s[0] == '\\' {
      BodyWasEscaped(s[2..], quote);
      var n := StringBody(s, quote).value.1;
      assert s[..n - 1][2..] == s[2..][..n - 3];
    } else if s[0] != quote {
      BodyWasEscaped(s[1..], quote);
      var n := StringBody(s, quote).value.1;
      assert s[..n - 1][1..] == s[1..][..n - 2];
    }
  }

  lemma {:induction false} QuotedWas(s: string, pos: nat)
    requires s != "" && (s[0] == '\'' || s[0] == '"') && QuotedStep(s, pos).Ok?
    ensures var (t, n) := QuotedStep(s, pos).value;
            t.Some? && t.value.kind == Str && t.value.pos == pos && QuotedAs(s[..n], s[0], t.value.val)
  {
    BodyWasEscaped(s[1..], s[0]);
    var n := QuotedStep(s, pos).value.1;
    assert s[..n][1..n - 1] == s[1..][..n - 2];
  }

  lemma {:induction false} WordWas(w: string, pos: nat)
    requires IsWord(w)
    ensures var t := WordToken(w, pos);
            t.pos == pos && IsWordKind(t.kind) && Lexical(Lexeme(t.kind, t.val)) && IsSpelling(Lexeme(t.kind, t.val), w)
  {
  }

  /** A step took a spelled lexeme that what follows does not run into. */
  lemma {:induction false} StepWas(s: string, pos: nat)
    requires s != "" && Step(s, pos).Ok? && Step(s, pos).value.0.Some?
    ensures var (t, n) := Step(s, pos).value;
            var x := Lexeme(t.value.kind, t.value.val);
            && t.value.pos == pos && Lexical(x) && IsSpelling(x, s[..n]) && (n < |s| ==> CanFollow(x, s[n]))
  {
    hide Lexical, WordToken, NumberToken, PunctStep, MagicStep, QuotedStep;
    StepValid(s, pos);
    var (t, n) := Step(s, pos).value;
    ValidIsLexical(t.value);
    StepKind(s, pos);
    if s[0] == '\'' || s[0] == '"' {
      QuotedWas(s, pos);
    } else if s[0] == '@' {
      MagicWas(s, pos);
    } else if IsDigit(s[0]) {
      NumberWas(s, pos);
    } else if IsIdentStart(s[0]) {
      assert n > 0 by { assert IsIdentCont(s[0]); }
      WordWas(s[..n], pos);
    } else {
      PunctWas(s, pos);
    }
  }

  lemma ValidIsLexical(t: Token)
    requires ValidToken(t)
    ensures t.kind != EOF ==> Lexical(Lexeme(t.kind, t.val))
  {
    hide Lexical;
  }

  lemma {:induction false} MagicWas(s: string, pos: nat)
    requires s != "" && MagicStep(s, pos).Ok?
    ensures var (t, n) := MagicStep(s, pos).value;
            t == Some(Token(Magic, s[..n], pos)) && (n < |s| ==> !IsMagicChar(s[n]))
  {
  }

  lemma {:induction false} NumberWas(s: string, pos: nat)
    requires s != "" && IsDigit(s[0])
    ensures var (t, n) := NumberToken(s, pos);
            && t.pos == pos && t.val == s[..n] && (t.kind == Int || t.kind == Float)
            && (n < |s| ==> !IsDigit(s[n]) && (t.kind == Int ==> s[n] != '.'))
  {
  }

  lemma {:induction false} PunctWas(s: string, pos: nat)
    requires s != "" && PunctStep(s, pos).Ok?
    ensures var (t, n) := PunctStep(s, pos).value;
            && t.Some? && t.value.pos == pos && t.value.val == s[..n]
            && t.value.kind in {LParen, RParen, Comma, Dot, AndAnd, OrOr, Op}
            && (n < |s| ==> CanFollow(Lexeme(t.value.kind, t.value.val), s[n]))
  {
  }

  /** Every source the lexer accepts is a layout of spelled lexemes. */
  lemma {:induction false} LexedWasWritten(s: string, pos: nat)
      returns (p: seq<Lexeme>, words: seq<string>, gaps: seq<string>)
    requires LexFrom(s, pos).Ok?
    ensures |words| == |p| && |gaps| == |p| + 1 && Spelled(p, words, gaps) && s == Written(words, gaps)
    ensures LexFrom(s, pos).value == Placed(p, words, gaps, pos)
    decreases |s|
  {
    hide Step, Lexical, CanFollow, IsSpelling, Spelled, Written, Placed;
    if s == "" {
      p, words, gaps := [], [], [""];
      NothingWritten(pos);
    } else {
      var (t, n) := Step(s, pos).value;
      p, words, gaps := LexedWasWritten(s[n..], pos + n);
      assert s == s[..n] + s[n..];
      if t.Some? {
        StepWas(s, pos);
        var x := Lexeme(t.value.kind, t.value.val);
        WordBefore(x, s[..n], s[n..], p, words, gaps, pos);
        p, words, gaps := [x] + p, [s[..n]] + words, [""] + gaps;
      } else {
        SpaceStep(s, pos);
        SpaceBefore(s[..1], s[1..], p, words, gaps, pos);
        gaps := [s[..1] + gaps[0]] + gaps[1..];
      }
    }
  }

  lemma NothingWritten(pos: nat)
    ensures Spelled([], [], [""]) && Written([], [""]) == "" && Placed([], [], [""], pos) == [Token(EOF, "", pos)]
  {
  }

  lemma {:induction false} WordBefore(x: Lexeme, w: string, rest: string, p: seq<Lexeme>, words: seq<string>,
          gaps: seq<string>, pos: nat)
    requires Spelled(p, words, gaps) && rest == Written(words, gaps)
    requires Lexical(x) && IsSpelling(x, w) && (rest != "" ==> CanFollow(x, rest[0]))
    ensures Spelled([x] + p, [w] + words, [""] + gaps) && Written([w] + words, [""] + gaps) == w + rest
    ensures Placed([x] + p, [w] + words, [""] + gaps, pos)
         == [Token(x.kind, x.val, pos)] + Placed(p, words, gaps, pos + |w|)
  {
    hide Lexical, CanFollow, IsSpelling;
    assert ([x] + p)[1..] == p && ([w] + words)[1..] == words && ([""] + gaps)[1..] == gaps;
    assert "" + (w + rest) == w + rest;
  }

  lemma {:induction false} SpaceBefore(gap: string, rest: string, p: seq<Lexeme>, words: seq<string>,
          gaps: seq<string>, pos: nat)
    requires Spelled(p, words, gaps) && rest == Written(words, gaps) && AllSpace(gap)
    ensures var more := [gap + gaps[0]] + gaps[1..];
            && Spelled(p, words, more) && Written(words, more) == gap + rest
            && Placed(p, words, more, pos) == Placed(p, words, gaps, pos + |gap|)
  {
    hide Lexical, CanFollow, IsSpelling;
    var more := [gap + gaps[0]] + gaps[1..];
    assert more[1..] == gaps[1..];
    if words != [] {
      var tail := words[0] + Written(words[1..], gaps[1..]);
      assert gap + (gaps[0] + tail) == more[0] + tail;
    }
  }

  lemma SpaceStep(s: string, pos: nat)
    requires s != "" && Step(s, pos).Ok? && Step(s, pos).value.0 == None
    ensures IsSpace(s[0]) && Step(s, pos).value.1 == 1
  {
    hide WordToken, NumberToken, StringBody, MagicLen;
  }

  /** `s` is the layout of words that spell the lexemes. */
  ghost predicate Writes(s: string, p: seq<Lexeme>, words: seq<string>, gaps: seq<string>) {
    |words| == |p| && |gaps| == |p| + 1 && Spelled(p, words, gaps) && s == Written(words, gaps)
  }

  /** The lexer gives these tokens if and only if the source is a layout of words that spell them. */
  lemma {:induction false} LexesExactly(s: string, toks: seq<Token>)
    ensures LexFrom(s, 0) == Ok(toks) <==>
            exists p, words, gaps :: Writes(s, p, words, gaps) && toks == Placed(p, words, gaps, 0)
  {
    hide LexFrom, Spelled, Written, Placed;
    if LexFrom(s, 0) == Ok(toks) {
      var p, words, gaps := LexedWasWritten(s, 0);
      SpelledSizes(p, words, gaps);
      assert Writes(s, p, words, gaps);
    }
    if p, words, gaps :| Writes(s, p, words, gaps) && toks == Placed(p, words, gaps, 0) {
      LexUndoesWriting(p, words, gaps, 0);
    }
  }

  // ---- sources of filters ----------------------------------------------------------------

  lemma {:induction false} PlacedShows(p: seq<Lexeme>, words: seq<string>, gaps: seq<string>, pos: nat)
    requires |words| == |p| && |gaps| == |p| + 1
    ensures var toks := Placed(p, words, gaps, pos);
            |toks| == |p| + 1 && Shows(toks, 0, p) && toks[|p|].kind == EOF
    decreases |p|
  {
    if p != [] {
      PlacedShows(p[1..], words[1..], gaps[1..], pos + |gaps[0]| + |words[0]|);
    }
  }

  lemma ShownAlike(toks: seq<Token>, p: seq<Lexeme>, q: seq<Lexeme>)
    requires Shows(toks, 0, p) && Shows(toks, 0, q) && |p| == |q|
    ensures p == q
  {
    forall i | 0 <= i < |p| ensures p[i] == q[i] { assert toks[i].kind == p[i].kind == q[i].kind; }
  }

  /** The source is some layout and spelling of the phrase. */
  ghost predicate WritesPhrase(src: string, p: Phrase) { exists words, gaps :: Writes(src, Yield(p), words, gaps) }

  /** The parser returns a tree if and only if the source writes a phrase of the
      grammar that denotes it; every other source is refused. */
  lemma {:induction false} ParsesExactly(src: string, n: Node)
    ensures ParseSource(src) == Ok(n) <==>
            exists p: Phrase :: Derives(p, 1) && Denoted(p) == n && WritesPhrase(src, p)
  {
    hide LexFrom, OrFrom, Shows, Derives, Denoted, Yield, Spelled, Written, Placed;
    if ParseSource(src) == Ok(n) {
      TokensParseIff(src, n);
      var toks := LexFrom(src, 0).value;
      var p: Phrase :| Derives(p, 1) && Denoted(p) == n && Spells(toks, p);
      var q, words, gaps := LexedWasWritten(src, 0);
      SpelledSizes(q, words, gaps);
      PlacedShows(q, words, gaps, 0);
      ShownAlike(toks, Yield(p), q);
      assert Writes(src, Yield(p), words, gaps);
    }
    if p: Phrase :| Derives(p, 1) && Denoted(p) == n && WritesPhrase(src, p) {
      var words, gaps :| Writes(src, Yield(p), words, gaps);
      WritingSpells(src, p, words, gaps);
      TokensParseIff(src, n);
    }
  }

  lemma {:induction false} WritingSpells(src: string, p: Phrase, words: seq<string>, gaps: seq<string>)
    requires Writes(src, Yield(p), words, gaps)
    ensures LexFrom(src, 0).Ok? && Spells(LexFrom(src, 0).value, p)
  {
    hide LexFrom, Shows, Yield, Spelled, Written, Placed;
    LexUndoesWriting(Yield(p), words, gaps, 0);
    PlacedShows(Yield(p), words, gaps, 0);
  }

  lemma SpelledSizes(p: seq<Lexeme>, words: seq<string>, gaps: seq<string>)
    requires Spelled(p, words, gaps)
    ensures |words| == |p| && |gaps| == |p| + 1
  {
    hide Lexical, IsSpelling;
  }

  /** Letter case of keywords, the kind of quotes and white space make no
      difference: two sources with the same lexemes have the same trees. */
  lemma {:induction false} SpellingIsFree(src: string, other: string, p: seq<Lexeme>, words: seq<string>,
          gaps: seq<string>, otherWords: seq<string>, otherGaps: seq<string>, n: Node)
    requires Writes(src, p, words, gaps) && Writes(other, p, otherWords, otherGaps)
    ensures ParseSource(src) == Ok(n) <==> ParseSource(other) == Ok(n)
  {
    hide ParseSource, Writes;
    if ParseSource(src) == Ok(n) { OneSpelling(src, other, p, words, gaps, otherWords, otherGaps, n); }
    if ParseSource(other) == Ok(n) { OneSpelling(other, src, p, otherWords, otherGaps, words, gaps, n); }
  }

  lemma {:induction false} OneSpelling(src: string, other: string, p: seq<Lexeme>, words: seq<string>,
          gaps: seq<string>, otherWords: seq<string>, otherGaps: seq<string>, n: Node)
    requires Writes(src, p, words, gaps) && Writes(other, p, otherWords, otherGaps) && ParseSource(src) == Ok(n)
    ensures ParseSource(other) == Ok(n)
  {
    hide LexFrom, OrFrom, Shows, Derives, Denoted, Yield, Spelled, Written, Placed;
    LexUndoesWriting(p, words, gaps, 0);
    PlacedShows(p, words, gaps, 0);
    TokensParseIff(src, n);
    var toks := LexFrom(src, 0).value;
    var q: Phrase :| Derives(q, 1) && Denoted(q) == n && Spells(toks, q);
    ShownAlike(toks, Yield(q), p);
    assert WritesPhrase(other, q);
    ParsesExactly(other, n);
  }

  /** Comparisons and tests do not chain: whatever follows one, other than a
      connective, is refused where it stands. */
  lemma {:induction false} ChainRefused(src: string, p: Phrase, x: Lexeme, more: seq<Lexeme>,
          words: seq<string>, gaps: seq<string>)
    requires Rank(p) == 3 && Derives(p, 3) && Writes(src, Yield(p) + ([x] + more), words, gaps)
    requires x.kind != Dot && x.kind != AndAnd && x.kind != OrOr && x.kind != EOF
    ensures ParseSource(src) ==
            Err(PositionedError(Placed(Yield(p) + ([x] + more), words, gaps, 0)[|Yield(p)|].pos, TrailingToken))
  {
    hide LexFrom, Shows, Derives, Denoted, Yield, Spelled, Written, Placed;
    var q := Yield(p) + ([x] + more);
    LexUndoesWriting(q, words, gaps, 0);
    PlacedShows(q, words, gaps, 0);
    var toks := Placed(q, words, gaps, 0);
    ShowsThen(toks, 0, Yield(p), x, more);
    TestRefuses(src, toks, p);
  }

  lemma {:induction false} TestRefuses(src: string, toks: seq<Token>, p: Phrase)
    requires LexFrom(src, 0) == Ok(toks) && Rank(p) == 3 && Derives(p, 3) && Shows(toks, 0, Yield(p))
    requires |Yield(p)| < |toks| && toks[|Yield(p)|].kind !in {Dot, AndAnd, OrOr, EOF}
    ensures ParseSource(src) == Err(PositionedError(toks[|Yield(p)|].pos, TrailingToken))
  {
    hide LexFrom, CompareFrom, OrFrom, Shows, Derives, Denoted, Yield;
    TestPhraseParses(p, toks, 0);
    TestAlone(toks, Denoted(p), |Yield(p)|);
  }

  lemma {:induction false} TestAlone(toks: seq<Token>, n: Node, j: nat)
    requires CompareFrom(toks, 0) == Ok((n, j)) && j < |toks| && toks[j].kind != AndAnd && toks[j].kind != OrOr
    ensures OrFrom(toks, 0) == Ok((n, j))
  {
    hide CompareFrom;
    assert PeekAt(toks, j) == toks[j];
    assert AndTail(toks, j, n) == Ok((n, j));
    assert AndFrom(toks, 0) == Ok((n, j));
    assert OrTail(toks, j, n) == Ok((n, j));
  }

  /** `a < b < …`, and `a = b c …` with a connective forgotten. */
  lemma {:induction false} NoChains(src: string, a: string, b: string, op: string, x: Lexeme, more: seq<Lexeme>,
          words: seq<string>, gaps: seq<string>)
    requires x.kind == Name || x.kind == Op
    requires Writes(src, [Lexeme(Name, a), Lexeme(Op, op), Lexeme(Name, b)] + ([x] + more), words, gaps)
    ensures ParseSource(src).Err? && ParseSource(src).error.reason == TrailingToken
  {
    hide Spelled, Written, Placed, ParseSource, Writes;
    var p := Relation(op, Path([a]), Path([b]));
    assert Yield(p) == [Lexeme(Name, a), Lexeme(Op, op), Lexeme(Name, b)] && Derives(p, 3);
    ChainRefused(src, p, x, more, words, gaps);
  }
}
