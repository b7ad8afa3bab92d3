/** internal/filter/parser.go: recursive descent over the token list. The
    functions give the descent from index `i`; the class is the source's
    cursor, moved by `advance`. */
module FilterParser {
  import opened Text
  import opened FilterAst
  import opened FilterLexer

  type Parsed = Result<(Node, nat), PositionedError>

  function PeekAt(toks: seq<Token>, i: nat): Token {
    if i < |toks| then toks[i] else Token(EOF, "", 0)
  }

  /** `advance` stays put at the end of the list. */
  function After(toks: seq<Token>, i: nat): (j: nat)
    ensures i <= |toks| ==> i <= j <= |toks|
    ensures PeekAt(toks, i).kind != EOF ==> j == i + 1 && i < |toks|
  {
    if i < |toks| then i + 1 else i
  }

  function Fail(t: Token, why: Reason): Parsed { Err(PositionedError(t.pos, why)) }

  predicate Advances(r: Parsed, toks: seq<Token>, i: nat) {
    r.Ok? ==> i < r.value.1 <= |toks|
  }

  predicate IsAndWord(t: Token) { t.kind == Name && ToLower(t.val) == "and" }

  /** `strconv.ParseInt(val, 10, 64)` on a run of digits. */
  function IntNode(t: Token): Option<Node> {
    if AllDigits(t.val) && t.val != "" && NumberValue(t.val) <= MAX_INT64
    then Some(IntLit(NumberValue(t.val))) else None
  }

  /** The decimal fraction a float token spells. */
  function FloatNode(val: string): Option<Node> {
    var n := DigitsLen(val);
    if 0 < n < |val| && val[n] == '.' && AllDigits(val[n + 1..]) then
      Some(FloatLit(NumberValue(val[..n] + val[n + 1..]), |val| - n - 1))
    else None
  }

  function IdentOf(path: seq<string>): Node
    requires path != []
  {
    if |path| == 1 then Ident(path[0], "")
    else Ident(path[|path| - 1], Join(path, '.'))
  }

  /** The `.name` segments that follow; `path` holds those already read. */
  function Segments(toks: seq<Token>, i: nat, path: seq<string>): (r: Parsed)
    requires i <= |toks| && path != []
    ensures r.Ok? ==> i <= r.value.1 <= |toks|
    decreases |toks| - i
  {
    if PeekAt(toks, i).kind != Dot then Ok((IdentOf(path), i))
    else
      var seg := PeekAt(toks, i + 1);
      if seg.kind != Name then Fail(seg, ExpectedSegment)
      else Segments(toks, i + 2, path + [seg.val])
  }

  function PrimaryFrom(toks: seq<Token>, i: nat): (r: Parsed)
    requires i <= |toks|
    ensures Advances(r, toks, i)
    decreases |toks| - i, 0
  {
    var t := PeekAt(toks, i);
    match t.kind
    case LParen =>
      var (n, j) :- OrFrom(toks, i + 1);
      if PeekAt(toks, j).kind != RParen then Fail(PeekAt(toks, j), ExpectedRParen)
      else Ok((n, j + 1))
    case Name => Segments(toks, i + 1, [t.val])
    case Magic => Ok((MagicVar(t.val), i + 1))
    case Str => Ok((StringLit(t.val), i + 1))
    case Int => (match IntNode(t)
      case Some(n) => Ok((n, i + 1))
      case None => Fail(t, BadInteger))
    case Float => (match FloatNode(t.val)
      case Some(n) => Ok((n, i + 1))
      case None => Fail(t, BadFloat))
    case Bool => Ok((BoolLit(t.val == "true"), i + 1))
    case Null => Ok((NullLit, i + 1))
    case EOF => Fail(t, UnexpectedEnd)
    case _ => Fail(t, UnexpectedToken)
  }

  /** The IN list after an item: more items while commas follow. */
  function Items(toks: seq<Token>, i: nat, items: seq<Node>): (r: Result<(seq<Node>, nat), PositionedError>)
    requires i <= |toks|
    ensures r.Ok? ==> i < r.value.1 <= |toks| && |r.value.0| > |items|
    decreases |toks| - i, 1
  {
    var (x, j) :- PrimaryFrom(toks, i);
    if PeekAt(toks, j).kind == Comma then Items(toks, j + 1, items + [x])
    else Ok((items + [x], j))
  }

  /** What follows the left operand of a comparison, or nothing. */
  function CompareTail(toks: seq<Token>, i: nat, left: Node): (r: Parsed)
    requires i <= |toks|
    ensures r.Ok? ==> i <= r.value.1 <= |toks|
    decreases |toks| - i, 2
  {
    var t := PeekAt(toks, i);
    match t.kind
    case Op =>
      var (right, j) :- PrimaryFrom(toks, i + 1);
      Ok((Compare(t.val, left, right), j))
    case BetweenKw =>
      var (lo, j) :- PrimaryFrom(toks, i + 1);
      var andTok := PeekAt(toks, j);
      if !IsAndWord(andTok) then Fail(andTok, ExpectedBetweenAnd)
      else
        var (hi, k) :- PrimaryFrom(toks, j + 1);
        Ok((Between(left, lo, hi), k))
    case InKw =>
      if PeekAt(toks, i + 1).kind != LParen then Fail(PeekAt(toks, i + 1), ExpectedLParen)
      else if PeekAt(toks, i + 2).kind == RParen then
        Fail(PeekAt(toks, i + 3), EmptyInList)
      else
        var (items, j) :- Items(toks, i + 2, []);
        if PeekAt(toks, j).kind != RParen then Fail(PeekAt(toks, j), ExpectedCommaOrRParen)
        else Ok((In(left, items), j + 1))
    case IsKw =>
      var negate := PeekAt(toks, i + 1).kind == NotKw;
      var k := if negate then i + 2 else i + 1;
      if PeekAt(toks, k).kind != Null then Fail(PeekAt(toks, k), ExpectedNull)
      else Ok((if negate then IsNotNull(left) else IsNull(left), k + 1))
    case _ => Ok((left, i))
  }

  function CompareFrom(toks: seq<Token>, i: nat): (r: Parsed)
    requires i <= |toks|
    ensures Advances(r, toks, i)
    decreases |toks| - i, 3
  {
    var (left, j) :- PrimaryFrom(toks, i);
    CompareTail(toks, j, left)
  }

  function AndTail(toks: seq<Token>, i: nat, left: Node): (r: Parsed)
    requires i <= |toks|
    ensures r.Ok? ==> i <= r.value.1 <= |toks|
    decreases |toks| - i, 4
  {
    if PeekAt(toks, i).kind != AndAnd then Ok((left, i))
    else
      var (right, j) :- CompareFrom(toks, i + 1);
      AndTail(toks, j, And(left, right))
  }

  function AndFrom(toks: seq<Token>, i: nat): (r: Parsed)
    requires i <= |toks|
    ensures Advances(r, toks, i)
    decreases |toks| - i, 5
  {
    var (left, j) :- CompareFrom(toks, i);
    AndTail(toks, j, left)
  }

  function OrTail(toks: seq<Token>, i: nat, left: Node): (r: Parsed)
    requires i <= |toks|
    ensures r.Ok? ==> i <= r.value.1 <= |toks|
    decreases |toks| - i, 6
  {
    if PeekAt(toks, i).kind != OrOr then Ok((left, i))
    else
      var (right, j) :- AndFrom(toks, i + 1);
      OrTail(toks, j, Or(left, right))
  }

  function OrFrom(toks: seq<Token>, i: nat): (r: Parsed)
    requires i <= |toks|
    ensures Advances(r, toks, i)
    decreases |toks| - i, 7
  {
    var (left, j) :- AndFrom(toks, i);
    OrTail(toks, j, left)
  }

  /** `parseUncached`: one expression and nothing after it. */
  function ParseSource(src: string): Result<Node, PositionedError> {
    var toks :- LexFrom(src, 0);
    var (n, j) :- OrFrom(toks, 0);
    if PeekAt(toks, j).kind != EOF then Err(PositionedError(PeekAt(toks, j).pos, TrailingToken))
    else Ok(n)
  }

  // ---- the cursor ---------------------------------------------------------

  class Parser {
    const toks: seq<Token>
    var i: nat

    constructor (toks: seq<Token>)
      ensures this.toks == toks && i == 0
    {
      this.toks := toks;
      i := 0;
    }

    predicate Valid() reads this { i <= |toks| }

    /** The method left the cursor and result the descent gives from `from`. */
    ghost predicate Agrees(spec: Parsed, r: Result<Node, PositionedError>)
      reads this
    {
      match spec
      case Ok((n, j)) => r == Ok(n) && i == j
      case Err(e) => r == Err(e)
    }

    method Peek() returns (t: Token)
      ensures t == PeekAt(toks, i)
    {
      if i >= |toks| {
        return Token(EOF, "", 0);
      }
      return toks[i];
    }

    method Advance() returns (t: Token)
      modifies this
      ensures t == PeekAt(toks, old(i)) && i == After(toks, old(i))
    {
      t := Peek();
      if i < |toks| {
        i := i + 1;
      }
    }

    method ParseOr() returns (r: Result<Node, PositionedError>)
      requires Valid()
      modifies this
      ensures Valid() && Agrees(OrFrom(toks, old(i)), r)
      decreases |toks| - i, 7
    {
      ghost var start := i;
      r := ParseAnd();
      if r.Err? {
        return;
      }
      var left := r.value;
      var t := Peek();
      while t.kind == OrOr
        invariant Valid() && i > start && t == PeekAt(toks, i)
        invariant OrFrom(toks, start) == OrTail(toks, i, left)
        decreases |toks| - i
      {
        var _ := Advance();
        r := ParseAnd();
        if r.Err? {
          return;
        }
        left := Or(left, r.value);
        t := Peek();
      }
      return Ok(left);
    }

    method ParseAnd() returns (r: Result<Node, PositionedError>)
      requires Valid()
      modifies this
      ensures Valid() && Agrees(AndFrom(toks, old(i)), r)
      decreases |toks| - i, 5
    {
      ghost var start := i;
      r := ParseCompare();
      if r.Err? {
        return;
      }
      var left := r.value;
      var t := Peek();
      while t.kind == AndAnd
        invariant Valid() && i > start && t == PeekAt(toks, i)
        invariant AndFrom(toks, start) == AndTail(toks, i, left)
        decreases |toks| - i
      {
        var _ := Advance();
        r := ParseCompare();
        if r.Err? {
          return;
        }
        left := And(left, r.value);
        t := Peek();
      }
      return Ok(left);
    }

    method ParseCompare() returns (r: Result<Node, PositionedError>)
      requires Valid()
      modifies this
      ensures Valid() && Agrees(CompareFrom(toks, old(i)), r)
      decreases |toks| - i, 3
    {
      r := ParsePrimary();
      if r.Err? {
        return;
      }
      var left := r.value;
      var t := Peek();
      match t.kind {
        case Op =>
          var op := Advance();
          r := ParsePrimary();
          if r.Ok? {
            r := Ok(Compare(op.val, left, r.value));
          }
        case BetweenKw =>
          r := ParseBetweenTail(left);
        case InKw =>
          r := ParseInTail(left);
        case IsKw =>
          var _ := Advance();
          var negate := false;
          t := Peek();
          if t.kind == NotKw {
            var _ := Advance();
            negate := true;
            t := Peek();
          }
          if t.kind != Null {
            return Err(PositionedError(t.pos, ExpectedNull));
          }
          var _ := Advance();
          r := Ok(if negate then IsNotNull(left) else IsNull(left));
        case _ =>
          r := Ok(left);
      }
    }

    method ParseBetweenTail(left: Node) returns (r: Result<Node, PositionedError>)
      requires Valid() && PeekAt(toks, i).kind == BetweenKw
      modifies this
      ensures Valid() && Agrees(CompareTail(toks, old(i), left), r)
      decreases |toks| - i, 2
    {
      var _ := Advance();
      r := ParsePrimary();
      if r.Err? {
        return;
      }
      var lo := r.value;
      var andTok := Peek();
      if !IsAndWord(andTok) {
        return Err(PositionedError(andTok.pos, ExpectedBetweenAnd));
      }
      var _ := Advance();
      r := ParsePrimary();
      if r.Ok? {
        r := Ok(Between(left, lo, r.value));
      }
    }

    method ParseInTail(left: Node) returns (r: Result<Node, PositionedError>)
      requires Valid() && PeekAt(toks, i).kind == InKw
      modifies this
      ensures Valid() && Agrees(CompareTail(toks, old(i), left), r)
      decreases |toks| - i, 2
    {
      var _ := Advance();
      var t := Peek();
      if t.kind != LParen {
        return Err(PositionedError(t.pos, ExpectedLParen));
      }
      var _ := Advance();
      var items: seq<Node> := [];
      t := Peek();
      if t.kind != RParen {
        var listed := ParseItems();
        if listed.Err? {
          return Err(listed.error);
        }
        items := listed.value;
        t := Peek();
      }
      if t.kind != RParen {
        return Err(PositionedError(t.pos, ExpectedCommaOrRParen));
      }
      var _ := Advance();
      if |items| == 0 {
        t := Peek();
        return Err(PositionedError(t.pos, EmptyInList));
      }
      return Ok(In(left, items));
    }

    /** The loop over the items of a list, one or more, separated by commas. */
    method ParseItems() returns (r: Result<seq<Node>, PositionedError>)
      requires Valid() && i > 0
      modifies this
      ensures Valid()
      ensures match Items(toks, old(i), [])
              case Ok((items, j)) => r == Ok(items) && i == j && items != []
              case Err(e) => r == Err(e)
      decreases |toks| - i, 1
    {
      ghost var start := i;
      var items: seq<Node> := [];
      var more := true;
      while more
        invariant Valid() && i >= start
        invariant more ==> Items(toks, start, []) == Items(toks, i, items)
        invariant !more ==> items != [] && Items(toks, start, []) == Ok((items, i))
        decreases |toks| - i, if more then 1 else 0
      {
        var item := ParsePrimary();
        if item.Err? {
          return Err(item.error);
        }
        items := items + [item.value];
        var t := Peek();
        if t.kind == Comma {
          var _ := Advance();
        } else {
          more := false;
        }
      }
      r := Ok(items);
    }

    method ParsePrimary() returns (r: Result<Node, PositionedError>)
      requires Valid()
      modifies this
      ensures Valid() && Agrees(PrimaryFrom(toks, old(i)), r)
      decreases |toks| - i, 0
    {
      var t := Peek();
      match t.kind {
        case LParen =>
          var _ := Advance();
          r := ParseOr();
          if r.Err? {
            return;
          }
          var close := Peek();
          if close.kind != RParen {
            return Err(PositionedError(close.pos, ExpectedRParen));
          }
          var _ := Advance();
        case Name =>
          r := ParseIdent();
        case Magic =>
          var _ := Advance();
          r := Ok(MagicVar(t.val));
        case Str =>
          var _ := Advance();
          r := Ok(StringLit(t.val));
        case Int =>
          var _ := Advance();
          var n := IntNode(t);
          r := if n.Some? then Ok(n.value) else Err(PositionedError(t.pos, BadInteger));
        case Float =>
          var _ := Advance();
          var n := FloatNode(t.val);
          r := if n.Some? then Ok(n.value) else Err(PositionedError(t.pos, BadFloat));
        case Bool =>
          var _ := Advance();
          r := Ok(BoolLit(t.val == "true"));
        case Null =>
          var _ := Advance();
          r := Ok(NullLit);
        case EOF =>
          r := Err(PositionedError(t.pos, UnexpectedEnd));
        case _ =>
          r := Err(PositionedError(t.pos, UnexpectedToken));
      }
    }

    method ParseIdent() returns (r: Result<Node, PositionedError>)
      requires Valid() && PeekAt(toks, i).kind == Name
      modifies this
      ensures Valid() && Agrees(Segments(toks, old(i) + 1, [PeekAt(toks, old(i)).val]), r)
    {
      ghost var start := i;
      var t := Advance();
      var path := [t.val];
      t := Peek();
      while t.kind == Dot
        invariant Valid() && i > start && path != [] && t == PeekAt(toks, i)
        invariant Segments(toks, start + 1, [PeekAt(toks, start).val]) == Segments(toks, i, path)
        decreases |toks| - i
      {
        var _ := Advance();
        var seg := Peek();
        if seg.kind != Name {
          return Err(PositionedError(seg.pos, ExpectedSegment));
        }
        var _ := Advance();
        path := path + [seg.val];
        t := Peek();
      }
      return Ok(IdentOf(path));
    }
  }

  /** `parseUncached`, on the lexer and the cursor. */
  method ParseUncached(src: string) returns (r: Result<Node, PositionedError>)
    ensures r == ParseSource(src)
  {
    var lexed := Lex(src);
    if lexed.Err? {
      return Err(lexed.error);
    }
    var p := new Parser(lexed.value);
    r := p.ParseOr();
    if r.Err? {
      return;
    }
    var t := p.Peek();
    if t.kind != EOF {
      return Err(PositionedError(t.pos, TrailingToken));
    }
  }
}
