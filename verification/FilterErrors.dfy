/** The parser blames the first token with which no phrase of the grammar can go
    on, and the lexer the first byte at which no word can stand. */
module FilterErrors {
  import opened Text
  import opened FilterAst
  import opened FilterLexer
  import opened FilterParser
  import opened FilterPrinter
  import opened FilterRoundTrip
  import opened FilterAccepted
  import opened FilterGrammar
  import opened FilterSpelling
  import opened FilterBlame

  // ---- where the descent stops ---------------------------------------------------------

  /** The result goes up to token `k`, or is blamed on it. */
  ghost predicate Stops<T>(r: Result<(T, nat), PositionedError>, toks: seq<Token>, i: nat, k: nat) {
    i <= k < |toks| && match r { case Ok((_, j)) => j == k case Err(e) => e.pos == toks[k].pos }
  }

  lemma {:induction false} PathStop(toks: seq<Token>, i: nat, names: seq<string>) returns (k: nat)
    requires Proper(toks) && i < |toks| && names != []
    ensures Stops(Segments(toks, i, names), toks, i, k)
    decreases |toks| - i
  {
    hide Proper, Rising, Agree, PrimaryFrom, CompareFrom, AndFrom, OrFrom, Items,
      AndTail, OrTail, CompareTail, IntNode, FloatNode, IdentOf;
    AtEnd(toks, i);
    k := i;
    if toks[i].kind == Dot {
      AtEnd(toks, i + 1);
      k := i + 1;
      if toks[i + 1].kind == Name { k := PathStop(toks, i + 2, names + [toks[i + 1].val]); }
    }
  }

  lemma {:induction false} OperandStop(toks: seq<Token>, i: nat) returns (k: nat)
    requires Proper(toks) && i < |toks|
    ensures Stops(PrimaryFrom(toks, i), toks, i, k)
  {
    hide PrimaryFrom, ValidTokens, Shows, Yield, Derives, Denoted;
    if PrimaryFrom(toks, i).Err? {
      var p: Phrase;
      k, p := OperandBlame(toks, i);
    } else {
      var a := OperandRead(toks, i);
      YieldInside(toks, i, a);
      k := PrimaryFrom(toks, i).value.1;
    }
  }

  lemma {:induction false} OrStop(toks: seq<Token>, i: nat) returns (k: nat)
    requires Proper(toks) && i < |toks|
    ensures Stops(OrFrom(toks, i), toks, i, k)
  {
    hide OrFrom, ValidTokens, Shows, Yield, Derives, Denoted;
    if OrFrom(toks, i).Err? {
      var p: Phrase;
      k, p := OrBlame(toks, i);
    } else {
      var a := OrRead(toks, i);
      YieldInside(toks, i, a);
      k := OrFrom(toks, i).value.1;
    }
  }

  lemma {:induction false} TestStop(toks: seq<Token>, i: nat) returns (k: nat)
    requires Proper(toks) && i < |toks|
    ensures Stops(CompareFrom(toks, i), toks, i, k)
  {
    hide CompareFrom, ValidTokens, Shows, Yield, Derives, Denoted;
    if CompareFrom(toks, i).Err? {
      var p: Phrase;
      k, p := TestBlame(toks, i);
    } else {
      var a := TestRead(toks, i);
      YieldInside(toks, i, a);
      k := CompareFrom(toks, i).value.1;
    }
  }

  lemma {:induction false} AndStop(toks: seq<Token>, i: nat) returns (k: nat)
    requires Proper(toks) && i < |toks|
    ensures Stops(AndFrom(toks, i), toks, i, k)
  {
    hide AndFrom, ValidTokens, Shows, Yield, Derives, Denoted;
    if AndFrom(toks, i).Err? {
      var p: Phrase;
      k, p := AndBlame(toks, i);
    } else {
      var a := AndRead(toks, i);
      YieldInside(toks, i, a);
      k := AndFrom(toks, i).value.1;
    }
  }

  lemma {:induction false} ItemsStop(toks: seq<Token>, i: nat, before: seq<Node>) returns (k: nat)
    requires Proper(toks) && i < |toks|
    ensures Stops(Items(toks, i, before), toks, i, k)
    decreases |toks| - i
  {
    hide Proper, Rising, Agree, PrimaryFrom, CompareFrom, AndFrom, OrFrom, Segments,
      AndTail, OrTail, CompareTail, IntNode, FloatNode, IdentOf;
    k := OperandStop(toks, i);
    if PrimaryFrom(toks, i).Ok? {
      AtEnd(toks, k);
      if toks[k].kind == Comma { k := ItemsStop(toks, k + 1, before + [PrimaryFrom(toks, i).value.0]); }
    }
  }

  lemma {:induction false} TailStop(toks: seq<Token>, i: nat, left: Node) returns (k: nat)
    requires Proper(toks) && i < |toks|
    ensures Stops(CompareTail(toks, i, left), toks, i, k)
  {
    hide Proper, Rising, Agree, PrimaryFrom, CompareFrom, AndFrom, OrFrom, Items,
      Segments, AndTail, OrTail, IntNode, FloatNode, IdentOf;
    AtEnd(toks, i);
    match toks[i].kind {
      case Op => k := OperandStop(toks, i + 1);
      case BetweenKw =>
        k := OperandStop(toks, i + 1);
        if PrimaryFrom(toks, i + 1).Ok? {
          AtEnd(toks, k);
          if IsAndWord(toks[k]) { k := OperandStop(toks, k + 1); }
        }
      case InKw =>
        AtEnd(toks, i + 1);
        k := i + 1;
        if toks[i + 1].kind == LParen {
          AtEnd(toks, i + 2);
          if toks[i + 2].kind == RParen {
            AtEnd(toks, i + 3);
            k := i + 3;
          } else {
            k := ItemsStop(toks, i + 2, []);
            if Items(toks, i + 2, []).Ok? {
              AtEnd(toks, k);
              if toks[k].kind == RParen { k := k + 1; }
            }
          }
        }
      case IsKw =>
        AtEnd(toks, i + 1);
        k := if toks[i + 1].kind == NotKw then i + 2 else i + 1;
        AtEnd(toks, k);
        if toks[k].kind == Null { k := k + 1; }
      case _ => k := i;
    }
  }

  lemma {:induction false} AndTailStop(toks: seq<Token>, i: nat, left: Node) returns (k: nat)
    requires Proper(toks) && i < |toks|
    ensures Stops(AndTail(toks, i, left), toks, i, k)
    decreases |toks| - i
  {
    hide Proper, Rising, Agree, PrimaryFrom, CompareFrom, AndFrom, OrFrom, Items,
      Segments, OrTail, CompareTail, IntNode, FloatNode, IdentOf;
    AtEnd(toks, i);
    k := i;
    if toks[i].kind == AndAnd {
      k := TestStop(toks, i + 1);
      var r := CompareFrom(toks, i + 1);
      if r.Ok? { k := AndTailStop(toks, k, And(left, r.value.0)); }
    }
  }

  lemma {:induction false} OrTailStop(toks: seq<Token>, i: nat, left: Node) returns (k: nat)
    requires Proper(toks) && i < |toks|
    ensures Stops(OrTail(toks, i, left), toks, i, k)
    decreases |toks| - i
  {
    hide Proper, Rising, Agree, PrimaryFrom, CompareFrom, AndFrom, OrFrom, Items,
      Segments, AndTail, CompareTail, IntNode, FloatNode, IdentOf;
    AtEnd(toks, i);
    k := i;
    if toks[i].kind == OrOr {
      k := AndStop(toks, i + 1);
      var r := AndFrom(toks, i + 1);
      if r.Ok? { k := OrTailStop(toks, k, Or(left, r.value.0)); }
    }
  }

  // ---- and that it looks no further -----------------------------------------------------

  ghost predicate Rising(toks: seq<Token>) { forall i, j | 0 <= i < j < |toks| :: toks[i].pos < toks[j].pos }

  ghost predicate Agree(toks: seq<Token>, other: seq<Token>, m: nat) {
    m <= |toks| && m <= |other| && forall i | 0 <= i < m :: toks[i] == other[i]
  }

  /** The result was reached within the first `m` tokens. */
  ghost predicate Near<T>(r: Result<(T, nat), PositionedError>, toks: seq<Token>, m: nat) {
    match r
    case Ok((_, j)) => j < m
    case Err(e) => exists k :: 0 <= k < m && k < |toks| && e.pos == toks[k].pos
  }

  ghost predicate Shared(toks: seq<Token>, other: seq<Token>, i: nat, m: nat) {
    Proper(toks) && Rising(toks) && Agree(toks, other, m) && i < m <= |toks| && m <= |other|
  }

  lemma StopNear<T>(r: Result<(T, nat), PositionedError>, toks: seq<Token>, i: nat, k: nat, m: nat)
    requires Rising(toks) && Stops(r, toks, i, k)
    ensures Near(r, toks, m) <==> k < m
  {
  }

  lemma SamePeek(toks: seq<Token>, other: seq<Token>, m: nat, i: nat)
    requires Agree(toks, other, m) && i < m
    ensures i < |toks| && PeekAt(toks, i) == PeekAt(other, i) == toks[i]
  {
  }

  lemma {:induction false} PathLocal(toks: seq<Token>, other: seq<Token>, i: nat, m: nat, names: seq<string>)
    requires Shared(toks, other, i, m) && names != [] && Near(Segments(toks, i, names), toks, m)
    ensures Segments(other, i, names) == Segments(toks, i, names)
    decreases |toks| - i
  {
    hide Proper, Rising, Agree, PrimaryFrom, CompareFrom, AndFrom, OrFrom, Items,
      AndTail, OrTail, CompareTail, IntNode, FloatNode, IdentOf, Near;
    SamePeek(toks, other, m, i);
    if toks[i].kind == Dot {
      AtEnd(toks, i);
      AtEnd(toks, i + 1);
      var r := Segments(toks, i, names);
      if toks[i + 1].kind == Name {
        var more := names + [toks[i + 1].val];
        var k := PathStop(toks, i + 2, more);
        StopNear(r, toks, i + 2, k, m);
        SamePeek(toks, other, m, i + 1);
        PathLocal(toks, other, i + 2, m, more);
      } else {
        StopNear(r, toks, i, i + 1, m);
        SamePeek(toks, other, m, i + 1);
      }
    }
  }

  lemma {:induction false} OperandLocal(toks: seq<Token>, other: seq<Token>, i: nat, m: nat)
    requires Shared(toks, other, i, m) && Near(PrimaryFrom(toks, i), toks, m)
    ensures PrimaryFrom(other, i) == PrimaryFrom(toks, i)
    decreases |toks| - i, 0
  {
    hide Proper, Rising, Agree, CompareFrom, AndFrom, OrFrom, Items, Segments,
      AndTail, OrTail, CompareTail, IntNode, FloatNode, IdentOf, Near;
    SamePeek(toks, other, m, i);
    AtEnd(toks, i);
    var whole := PrimaryFrom(toks, i);
    if toks[i].kind == LParen {
      var r := OrFrom(toks, i + 1);
      var k := OrStop(toks, i + 1);
      if r.Ok? { AtEnd(toks, k); }
      StopNear(whole, toks, i, if r.Ok? && toks[k].kind == RParen then k + 1 else k, m);
      StopNear(r, toks, i + 1, k, m);
      OrLocal(toks, other, i + 1, m);
      SamePeek(toks, other, m, k);
    } else if toks[i].kind == Name {
      var k := PathStop(toks, i + 1, [toks[i].val]);
      StopNear(whole, toks, i + 1, k, m);
      PathLocal(toks, other, i + 1, m, [toks[i].val]);
    }
  }

  lemma {:induction false} ItemsLocal(toks: seq<Token>, other: seq<Token>, i: nat, m: nat, before: seq<Node>)
    requires Shared(toks, other, i, m) && Near(Items(toks, i, before), toks, m)
    ensures Items(other, i, before) == Items(toks, i, before)
    decreases |toks| - i, 1
  {
    hide Proper, Rising, Agree, PrimaryFrom, CompareFrom, AndFrom, OrFrom, Segments,
      AndTail, OrTail, CompareTail, IntNode, FloatNode, IdentOf, Near;
    var whole, r := Items(toks, i, before), PrimaryFrom(toks, i);
    var k := OperandStop(toks, i);
    AtEnd(toks, k);
    if r.Ok? && toks[k].kind == Comma {
      var more := before + [r.value.0];
      var j := ItemsStop(toks, k + 1, more);
      StopNear(whole, toks, k + 1, j, m);
      StopNear(r, toks, i, k, m);
      OperandLocal(toks, other, i, m);
      SamePeek(toks, other, m, k);
      ItemsLocal(toks, other, k + 1, m, more);
    } else {
      StopNear(whole, toks, i, k, m);
      StopNear(r, toks, i, k, m);
      OperandLocal(toks, other, i, m);
      SamePeek(toks, other, m, k);
    }
  }

  lemma {:induction false} TailLocal(toks: seq<Token>, other: seq<Token>, i: nat, m: nat, left: Node)
    requires Shared(toks, other, i, m) && Near(CompareTail(toks, i, left), toks, m)
    ensures CompareTail(other, i, left) == CompareTail(toks, i, left)
    decreases |toks| - i, 2
  {
    hide Proper, Rising, Agree, PrimaryFrom, CompareFrom, AndFrom, OrFrom, Items,
      Segments, AndTail, OrTail, IntNode, FloatNode, IdentOf, Near;
    SamePeek(toks, other, m, i);
    AtEnd(toks, i);
    var whole := CompareTail(toks, i, left);
    match toks[i].kind {
      case Op =>
        var k := OperandStop(toks, i + 1);
        StopNear(whole, toks, i + 1, k, m);
        StopNear(PrimaryFrom(toks, i + 1), toks, i + 1, k, m);
        OperandLocal(toks, other, i + 1, m);
      case BetweenKw => WithinLocal(toks, other, i, m, left);
      case InKw => MemberLocal(toks, other, i, m, left);
      case IsKw => NullTestLocal(toks, other, i, m, left);
      case _ =>
    }
  }

  lemma {:induction false} NullTestLocal(toks: seq<Token>, other: seq<Token>, i: nat, m: nat, left: Node)
    requires Shared(toks, other, i, m) && toks[i].kind == IsKw && Near(CompareTail(toks, i, left), toks, m)
    ensures CompareTail(other, i, left) == CompareTail(toks, i, left)
  {
    hide Proper, Rising, Agree, PrimaryFrom, Items, Near;
    SamePeek(toks, other, m, i);
    AtEnd(toks, i);
    AtEnd(toks, i + 1);
    var k := if toks[i + 1].kind == NotKw then i + 2 else i + 1;
    AtEnd(toks, k);
    StopNear(CompareTail(toks, i, left), toks, i, if toks[k].kind == Null then k + 1 else k, m);
    SamePeek(toks, other, m, i + 1);
    SamePeek(toks, other, m, k);
  }

  lemma {:induction false} WithinLocal(toks: seq<Token>, other: seq<Token>, i: nat, m: nat, left: Node)
    requires Shared(toks, other, i, m) && toks[i].kind == BetweenKw && Near(CompareTail(toks, i, left), toks, m)
    ensures CompareTail(other, i, left) == CompareTail(toks, i, left)
    decreases |toks| - i, 1
  {
    hide Proper, Rising, Agree, PrimaryFrom, CompareFrom, AndFrom, OrFrom, Items,
      Segments, AndTail, OrTail, IntNode, FloatNode, IdentOf, Near;
    SamePeek(toks, other, m, i);
    AtEnd(toks, i);
    var whole, r := CompareTail(toks, i, left), PrimaryFrom(toks, i + 1);
    var k := OperandStop(toks, i + 1);
    AtEnd(toks, k);
    if r.Ok? && IsAndWord(toks[k]) {
      var j := OperandStop(toks, k + 1);
      StopNear(whole, toks, k + 1, j, m);
      StopNear(r, toks, i + 1, k, m);
      StopNear(PrimaryFrom(toks, k + 1), toks, k + 1, j, m);
      OperandLocal(toks, other, i + 1, m);
      SamePeek(toks, other, m, k);
      OperandLocal(toks, other, k + 1, m);
    } else {
      StopNear(whole, toks, i + 1, k, m);
      StopNear(r, toks, i + 1, k, m);
      OperandLocal(toks, other, i + 1, m);
      SamePeek(toks, other, m, k);
    }
  }

  lemma {:induction false} MemberLocal(toks: seq<Token>, other: seq<Token>, i: nat, m: nat, left: Node)
    requires Shared(toks, other, i, m) && toks[i].kind == InKw && Near(CompareTail(toks, i, left), toks, m)
    ensures CompareTail(other, i, left) == CompareTail(toks, i, left)
    decreases |toks| - i, 1, 1
  {
    hide Proper, Rising, Agree, PrimaryFrom, CompareFrom, AndFrom, OrFrom, Items,
      Segments, AndTail, OrTail, IntNode, FloatNode, IdentOf, Near;
    SamePeek(toks, other, m, i);
    AtEnd(toks, i);
    AtEnd(toks, i + 1);
    var whole := CompareTail(toks, i, left);
    if toks[i + 1].kind != LParen {
      StopNear(whole, toks, i, i + 1, m);
      SamePeek(toks, other, m, i + 1);
    } else {
      AtEnd(toks, i + 2);
      if toks[i + 2].kind == RParen {
        AtEnd(toks, i + 3);
        StopNear(whole, toks, i, i + 3, m);
        SamePeek(toks, other, m, i + 1);
        SamePeek(toks, other, m, i + 2);
        SamePeek(toks, other, m, i + 3);
      } else {
        var r := Items(toks, i + 2, []);
        var k := ItemsStop(toks, i + 2, []);
        AtEnd(toks, k);
        StopNear(whole, toks, i, if r.Ok? && toks[k].kind == RParen then k + 1 else k, m);
        StopNear(r, toks, i + 2, k, m);
        SamePeek(toks, other, m, i + 1);
        SamePeek(toks, other, m, i + 2);
        SamePeek(toks, other, m, k);
        ItemsLocal(toks, other, i + 2, m, []);
      }
    }
  }

  lemma {:induction false} TestLocal(toks: seq<Token>, other: seq<Token>, i: nat, m: nat)
    requires Shared(toks, other, i, m) && Near(CompareFrom(toks, i), toks, m)
    ensures CompareFrom(other, i) == CompareFrom(toks, i)
    decreases |toks| - i, 3
  {
    hide Proper, Rising, Agree, PrimaryFrom, AndFrom, OrFrom, Items, Segments,
      AndTail, OrTail, CompareTail, IntNode, FloatNode, IdentOf, Near;
    var whole, r := CompareFrom(toks, i), PrimaryFrom(toks, i);
    var k := OperandStop(toks, i);
    var j := k;
    if r.Ok? { j := TailStop(toks, k, r.value.0); }
    StopNear(whole, toks, i, j, m);
    StopNear(r, toks, i, k, m);
    OperandLocal(toks, other, i, m);
    if r.Ok? {
      StopNear(CompareTail(toks, k, r.value.0), toks, k, j, m);
      TailLocal(toks, other, k, m, r.value.0);
    }
  }

  lemma {:induction false} AndTailLocal(toks: seq<Token>, other: seq<Token>, i: nat, m: nat, left: Node)
    requires Shared(toks, other, i, m) && Near(AndTail(toks, i, left), toks, m)
    ensures AndTail(other, i, left) == AndTail(toks, i, left)
    decreases |toks| - i, 4
  {
    hide Proper, Rising, Agree, PrimaryFrom, CompareFrom, AndFrom, OrFrom, Items,
      Segments, OrTail, CompareTail, IntNode, FloatNode, IdentOf, Near;
    SamePeek(toks, other, m, i);
    AtEnd(toks, i);
    if toks[i].kind == AndAnd {
      var whole, r := AndTail(toks, i, left), CompareFrom(toks, i + 1);
      var k := TestStop(toks, i + 1);
      var j := k;
      if r.Ok? { j := AndTailStop(toks, k, And(left, r.value.0)); }
      StopNear(whole, toks, i, j, m);
      StopNear(r, toks, i + 1, k, m);
      TestLocal(toks, other, i + 1, m);
      if r.Ok? { AndTailLocal(toks, other, k, m, And(left, r.value.0)); }
    }
  }

  lemma {:induction false} AndLocal(toks: seq<Token>, other: seq<Token>, i: nat, m: nat)
    requires Shared(toks, other, i, m) && Near(AndFrom(toks, i), toks, m)
    ensures AndFrom(other, i) == AndFrom(toks, i)
    decreases |toks| - i, 5
  {
    hide Proper, Rising, Agree, PrimaryFrom, CompareFrom, OrFrom, Items, Segments,
      AndTail, OrTail, CompareTail, IntNode, FloatNode, IdentOf, Near;
    var whole, r := AndFrom(toks, i), CompareFrom(toks, i);
    var k := TestStop(toks, i);
    var j := k;
    if r.Ok? { j := AndTailStop(toks, k, r.value.0); }
    StopNear(whole, toks, i, j, m);
    StopNear(r, toks, i, k, m);
    TestLocal(toks, other, i, m);
    if r.Ok? { AndTailLocal(toks, other, k, m, r.value.0); }
  }

  lemma {:induction false} OrTailLocal(toks: seq<Token>, other: seq<Token>, i: nat, m: nat, left: Node)
    requires Shared(toks, other, i, m) && Near(OrTail(toks, i, left), toks, m)
    ensures OrTail(other, i, left) == OrTail(toks, i, left)
    decreases |toks| - i, 6
  {
    hide Proper, Rising, Agree, PrimaryFrom, CompareFrom, AndFrom, OrFrom, Items,
      Segments, AndTail, CompareTail, IntNode, FloatNode, IdentOf, Near;
    SamePeek(toks, other, m, i);
    AtEnd(toks, i);
    if toks[i].kind == OrOr {
      var whole, r := OrTail(toks, i, left), AndFrom(toks, i + 1);
      var k := AndStop(toks, i + 1);
      var j := k;
      if r.Ok? { j := OrTailStop(toks, k, Or(left, r.value.0)); }
      StopNear(whole, toks, i, j, m);
      StopNear(r, toks, i + 1, k, m);
      AndLocal(toks, other, i + 1, m);
      if r.Ok? { OrTailLocal(toks, other, k, m, Or(left, r.value.0)); }
    }
  }

  lemma {:induction false} OrLocal(toks: seq<Token>, other: seq<Token>, i: nat, m: nat)
    requires Shared(toks, other, i, m) && Near(OrFrom(toks, i), toks, m)
    ensures OrFrom(other, i) == OrFrom(toks, i)
    decreases |toks| - i, 7
  {
    hide Proper, Rising, Agree, PrimaryFrom, CompareFrom, AndFrom, Items, Segments,
      AndTail, OrTail, CompareTail, IntNode, FloatNode, IdentOf, Near;
    var whole, r := OrFrom(toks, i), AndFrom(toks, i);
    var k := AndStop(toks, i);
    var j := k;
    if r.Ok? { j := OrTailStop(toks, k, r.value.0); }
    StopNear(whole, toks, i, j, m);
    StopNear(r, toks, i, k, m);
    AndLocal(toks, other, i, m);
    if r.Ok? { OrTailLocal(toks, other, k, m, r.value.0); }
  }

  // ---- sources ---------------------------------------------------------------------------

  lemma {:induction false} LexRising(s: string, pos: nat)
    requires LexFrom(s, pos).Ok?
    ensures var toks := LexFrom(s, pos).value;
            Rising(toks) && forall i | 0 <= i < |toks| :: toks[i].pos >= pos
    decreases |s|
  {
    hide Step;
    if s != "" {
      var (t, n) := Step(s, pos).value;
      LexRising(s[n..], pos + n);
      if t.Some? {
        StepWas(s, pos);
        var rest := LexFrom(s[n..], pos + n).value;
        assert LexFrom(s, pos).value == [t.value] + rest;
      }
    }
  }

  lemma {:induction false} LexProper(src: string)
    requires LexFrom(src, 0).Ok?
    ensures Proper(LexFrom(src, 0).value) && Rising(LexFrom(src, 0).value)
  {
    LexedValid(src, 0);
    OneEnd(src, 0);
    LexRising(src, 0);
  }

  function Unplaced(y: seq<Lexeme>): seq<Token> { seq(|y|, i requires 0 <= i < |y| => Token(y[i].kind, y[i].val, 0)) }

  /** A whole phrase begins with the first `m` tokens: then the descent got past them. */
  lemma {:induction false} PhraseGoesOn(toks: seq<Token>, m: nat, q: Phrase)
    requires Proper(toks) && Rising(toks) && 0 < m && Derives(q, 1) && Begun(toks, 0, Yield(q), m)
    ensures m <= |toks| && !Near(OrFrom(toks, 0), toks, m)
  {
    hide OrFrom, Yield, Derives, Denoted, Proper, Rising;
    var y := Yield(q);
    ShowsFits(toks, 0, y[..m]);
    var other := toks[..m] + Unplaced(y[m..]) + [Token(EOF, "", 0)];
    forall i | 0 <= i < |y| ensures other[i].kind == y[i].kind && other[i].val == y[i].val {
      if i < m { assert toks[i].kind == y[..m][i].kind && toks[i].val == y[..m][i].val; }
    }
    assert Shows(other, 0, y);
    PhraseParses(q, 1, other, 0);
    assert OrTail(other, |y|, Denoted(q)) == Ok((Denoted(q), |y|));
    if Near(OrFrom(toks, 0), toks, m) {
      OrLocal(toks, other, 0, m);
    }
  }

  /** The parser blames the first token with which no phrase of the grammar can
      go on: what stands before it begins some phrase, and nothing that begins
      with it included does. (An empty IN list is blamed on the token after it.) */
  lemma {:induction false} BlamedIsFirst(src: string) returns (k: nat, p: Phrase)
    requires LexFrom(src, 0).Ok? && ParseSource(src).Err?
    ensures var toks, e := LexFrom(src, 0).value, ParseSource(src).error;
            && k < |toks| && e.pos == toks[k].pos
            && Derives(p, 1) && Begun(toks, 0, Yield(p), Sound(e, k))
            && (if e.reason == TrailingToken then k == |Yield(p)| && toks[k].kind != EOF else Fits(e.reason, toks[k]))
            && forall q: Phrase | Derives(q, 1) :: !Begun(toks, 0, Yield(q), k + 1) && !Spells(toks, q)
  {
    hide LexFrom, OrFrom, Yield, Derives, Denoted, Begun;
    var toks := LexFrom(src, 0).value;
    LexProper(src);
    var r := OrFrom(toks, 0);
    if r.Err? {
      k, p := OrBlame(toks, 0);
    } else {
      p := OrRead(toks, 0);
      k := r.value.1;
      YieldInside(toks, 0, p);
      AtEnd(toks, k);
      BegunAll(toks, 0, Yield(p), []);
      assert Yield(p) + [] == Yield(p);
    }
    forall q: Phrase | Derives(q, 1) ensures !Begun(toks, 0, Yield(q), k + 1) && !Spells(toks, q) {
      if Begun(toks, 0, Yield(q), k + 1) { PhraseGoesOn(toks, k + 1, q); }
      if Spells(toks, q) { TokensParseIff(src, Denoted(q)); }
    }
  }

  // ---- the lexer ---------------------------------------------------------------------------

  /** No word of any lexeme stands at the front of `s`. */
  ghost predicate NoWordAt(s: string) {
    s != "" && !IsSpace(s[0]) &&
    forall x: Lexeme, n: nat | n <= |s| && Lexical(x) && IsSpelling(x, s[..n]) :: n < |s| && !CanFollow(x, s[n])
  }

  lemma {:induction false} StepFails(s: string, pos: nat)
    requires s != "" && Step(s, pos).Err?
    ensures Step(s, pos).error.pos == pos && NoWordAt(s)
  {
    StepErrorHere(s, pos);
    hide Step, Lexical, IsSpelling, CanFollow;
    forall x: Lexeme, n: nat | n <= |s| && Lexical(x) && IsSpelling(x, s[..n]) ensures n < |s| && !CanFollow(x, s[n]) {
      assert s == s[..n] + s[n..];
      if n == |s| || CanFollow(x, s[n]) { SpellingReads(x, s[..n], s[n..], pos); }
    }
  }

  lemma StepErrorHere(s: string, pos: nat)
    requires s != "" && Step(s, pos).Err?
    ensures Step(s, pos).error.pos == pos && !IsSpace(s[0])
  {
    hide StringBody, MagicLen, NumberToken, WordToken, IdentLen;
  }

  /** The lexer blames the first byte at which no word can stand: what is before
      it is a layout of words that spell lexemes. */
  lemma {:induction false} UnreadIsFirst(s: string, pos: nat)
      returns (n: nat, p: seq<Lexeme>, words: seq<string>, gaps: seq<string>)
    requires LexFrom(s, pos).Err?
    ensures n < |s| && LexFrom(s, pos).error.pos == pos + n && NoWordAt(s[n..])
    ensures Writes(s[..n], p, words, gaps)
    decreases |s|
  {
    hide Step, Lexical, CanFollow, IsSpelling, Spelled, Written, NoWordAt;
    if Step(s, pos).Err? {
      StepFails(s, pos);
      n, p, words, gaps := 0, [], [], [""];
      NothingWritten(pos);
      assert s[0..] == s;
    } else {
      var (t, m) := Step(s, pos).value;
      var k;
      k, p, words, gaps := UnreadIsFirst(s[m..], pos + m);
      n := m + k;
      assert s[m..][k..] == s[n..] && s[..n] == s[..m] + s[m..][..k];
      if t.Some? {
        StepWas(s, pos);
        var x := Lexeme(t.value.kind, t.value.val);
        WordBefore(x, s[..m], s[m..][..k], p, words, gaps, pos);
        p, words, gaps := [x] + p, [s[..m]] + words, [""] + gaps;
      } else {
        SpaceStep(s, pos);
        SpaceBefore(s[..m], s[m..][..k], p, words, gaps, pos);
        gaps := [s[..m] + gaps[0]] + gaps[1..];
      }
    }
  }
}
