/** internal/filter/lexer.go: bytes to tokens. The functions say what the
    remaining text `s` lexes to; the methods are the source's index loops. */
module FilterLexer {
  import opened Text
  import opened FilterAst

  datatype Kind =
    | EOF | Name | Magic | Str | Int | Float | Bool | Null | InKw | BetweenKw | IsKw | NotKw
    | LParen | RParen | Comma | Dot | AndAnd | OrOr | Op

  datatype Token = Token(kind: Kind, val: string, pos: nat)

  type LexResult = Result<seq<Token>, PositionedError>

  predicate IsSpace(c: char) { c == ' ' || c == '\t' || c == '\n' || c == '\r' }

  /** Length of the longest prefix of identifier characters. */
  function IdentLen(s: string): (n: nat)
    ensures n <= |s|
    ensures forall i | 0 <= i < n :: IsIdentCont(s[i])
    ensures n < |s| ==> !IsIdentCont(s[n])
  {
    if s == "" || !IsIdentCont(s[0]) then 0 else 1 + IdentLen(s[1..])
  }

  function DigitsLen(s: string): (n: nat)
    ensures n <= |s|
    ensures forall i | 0 <= i < n :: IsDigit(s[i])
    ensures n < |s| ==> !IsDigit(s[n])
  {
    if s == "" || !IsDigit(s[0]) then 0 else 1 + DigitsLen(s[1..])
  }

  lemma {:induction false} IdentLenOf(w: string, rest: string)
    requires forall i | 0 <= i < |w| :: IsIdentCont(w[i])
    requires rest == "" || !IsIdentCont(rest[0])
    ensures IdentLen(w + rest) == |w|
  {
    if w == "" {
      assert w + rest == rest;
    } else {
      assert (w + rest)[1..] == w[1..] + rest;
      IdentLenOf(w[1..], rest);
    }
  }

  lemma {:induction false} DigitsLenAll(s: string, rest: string)
    requires AllDigits(s) && (rest == "" || !IsDigit(rest[0]))
    ensures DigitsLen(s + rest) == |s|
    decreases |s|
  {
    if s == "" {
      assert s + rest == rest;
    } else {
      assert (s + rest)[1..] == s[1..] + rest;
      DigitsLenAll(s[1..], rest);
    }
  }

  predicate IsMagicChar(c: char) { c == '.' || IsIdentCont(c) }

  function MagicLen(s: string): (n: nat)
    ensures n <= |s|
    ensures forall i | 0 <= i < n :: IsMagicChar(s[i])
    ensures n < |s| ==> !IsMagicChar(s[n])
  {
    if s == "" || !IsMagicChar(s[0]) then 0 else 1 + MagicLen(s[1..])
  }

  /** The text after an opening quote: the unescaped value and how many
      characters it took, closing quote included; None when it is malformed. */
  function StringBody(s: string, quote: char): (r: Option<(string, nat)>)
    ensures r.Some? ==> 0 < r.value.1 <= |s|
  {
    if s == "" then None
    else if s[0] == '\\' then
      if |s| == 1 || (s[1] != quote && s[1] != '\\') then None
      else
        match StringBody(s[2..], quote)
        case None => None
        case Some((v, n)) => Some(([s[1]] + v, n + 2))
    else if s[0] == quote then Some(("", 1))
    else
      match StringBody(s[1..], quote)
      case None => None
      case Some((v, n)) => Some(([s[0]] + v, n + 1))
  }

  function NumberToken(s: string, pos: nat): (r: (Token, nat))
    requires s != "" && IsDigit(s[0])
    ensures 0 < r.1 <= |s|
  {
    var n := DigitsLen(s);
    if n < |s| && s[n] == '.' then
      var m := n + 1 + DigitsLen(s[n + 1..]);
      (Token(Float, s[..m], pos), m)
    else (Token(Int, s[..n], pos), n)
  }

  /** Keywords are recognised in any letter case. */
  function WordToken(w: string, pos: nat): Token {
    var lower := ToLower(w);
    if lower == "true" || lower == "false" then Token(Bool, lower, pos)
    else if lower == "null" then Token(Null, "null", pos)
    else if lower == "in" then Token(InKw, "IN", pos)
    else if lower == "between" then Token(BetweenKw, "BETWEEN", pos)
    else if lower == "is" then Token(IsKw, "IS", pos)
    else if lower == "not" then Token(NotKw, "NOT", pos)
    else Token(Name, w, pos)
  }

  predicate NextIs(s: string, c: char) { |s| >= 2 && s[1] == c }

  type StepResult = Result<(Option<Token>, nat), PositionedError>

  function Took(kind: Kind, val: string, pos: nat, n: nat): StepResult { Ok((Some(Token(kind, val, pos)), n)) }

  /** Parentheses, connectives and comparison operators. */
  function PunctStep(s: string, pos: nat): (r: StepResult)
    requires s != ""
    ensures r.Ok? ==> 0 < r.value.1 <= |s|
  {
    match s[0]
    case '(' => Took(LParen, "(", pos, 1)
    case ')' => Took(RParen, ")", pos, 1)
    case ',' => Took(Comma, ",", pos, 1)
    case '.' => Took(Dot, ".", pos, 1)
    case '&' => if NextIs(s, '&') then Took(AndAnd, "&&", pos, 2) else Err(PositionedError(pos, ExpectedAndAnd))
    case '|' => if NextIs(s, '|') then Took(OrOr, "||", pos, 2) else Err(PositionedError(pos, ExpectedOrOr))
    case '=' => Took(Op, "=", pos, 1)
    case '!' =>
      if NextIs(s, '=') then Took(Op, "!=", pos, 2)
      else if NextIs(s, '~') then Took(Op, "!~", pos, 2)
      else Err(PositionedError(pos, StrayBang))
    case '>' => if NextIs(s, '=') then Took(Op, ">=", pos, 2) else Took(Op, ">", pos, 1)
    case '<' => if NextIs(s, '=') then Took(Op, "<=", pos, 2) else Took(Op, "<", pos, 1)
    case '~' => Took(Op, "~", pos, 1)
    case _ => Err(PositionedError(pos, UnexpectedCharacter))
  }

  function QuotedStep(s: string, pos: nat): (r: StepResult)
    requires s != ""
    ensures r.Ok? ==> 0 < r.value.1 <= |s|
  {
    match StringBody(s[1..], s[0])
    case None => Err(PositionedError(pos, BadString))
    case Some((v, n)) => Took(Str, v, pos, n + 1)
  }

  function MagicStep(s: string, pos: nat): (r: StepResult)
    requires s != ""
    ensures r.Ok? ==> 0 < r.value.1 <= |s|
  {
    var n := 1 + MagicLen(s[1..]);
    if s[..n] in MAGIC_NAMES then Took(Magic, s[..n], pos, n) else Err(PositionedError(pos, UnknownMagic))
  }

  /** One step at a non-empty rest: a token or a skipped space, and its length. */
  function Step(s: string, pos: nat): (r: StepResult)
    requires s != ""
    ensures r.Ok? ==> 0 < r.value.1 <= |s|
  {
    var c := s[0];
    if IsSpace(c) then Ok((None, 1))
    else if c == '\'' || c == '"' then QuotedStep(s, pos)
    else if c == '@' then MagicStep(s, pos)
    else if IsDigit(c) then
      var (t, n) := NumberToken(s, pos);
      Ok((Some(t), n))
    else if IsIdentStart(c) then
      var n := IdentLen(s);
      Ok((Some(WordToken(s[..n], pos)), n))
    else PunctStep(s, pos)
  }

  function Emit(t: Option<Token>): seq<Token> {
    if t.Some? then [t.value] else []
  }

  /** Everything the rest `s`, found at offset `pos`, lexes to. */
  function LexFrom(s: string, pos: nat): LexResult {
    if s == "" then Ok([Token(EOF, "", pos)])
    else
      var (t, n) :- Step(s, pos);
      var rest :- LexFrom(s[n..], pos + n);
      Ok(Emit(t) + rest)
  }

  // ---- the loops ----------------------------------------------------------

  method LexIdent(src: string, start: nat) returns (n: nat)
    requires start <= |src|
    ensures n == IdentLen(src[start..])
  {
    n := 0;
    while start + n < |src| && IsIdentCont(src[start + n])
      invariant start + n <= |src|
      invariant IdentLen(src[start..]) == n + IdentLen(src[start + n..])
    {
      assert src[start + n..][1..] == src[start + n + 1..];
      n := n + 1;
    }
  }

  method LexDigits(src: string, start: nat) returns (n: nat)
    requires start <= |src|
    ensures n == DigitsLen(src[start..])
  {
    n := 0;
    while start + n < |src| && IsDigit(src[start + n])
      invariant start + n <= |src|
      invariant DigitsLen(src[start..]) == n + DigitsLen(src[start + n..])
    {
      assert src[start + n..][1..] == src[start + n + 1..];
      n := n + 1;
    }
  }

  method LexNumber(src: string, start: nat) returns (t: Token, n: nat)
    requires start < |src| && IsDigit(src[start])
    ensures (t, n) == NumberToken(src[start..], start)
  {
    hide DigitsLen;
    n := LexDigits(src, start);
    if start + n < |src| && src[start + n] == '.' {
      var m := LexDigits(src, start + n + 1);
      assert src[start..][n + 1..] == src[start + n + 1..];
      n := n + 1 + m;
      t := Token(Float, src[start..start + n], start);
    } else {
      t := Token(Int, src[start..start + n], start);
    }
    assert src[start..][..n] == src[start..start + n];
  }

  method LexMagic(src: string, start: nat) returns (n: nat)
    requires start < |src| && src[start] == '@'
    ensures n == 1 + MagicLen(src[start + 1..])
  {
    n := 1;
    while start + n < |src| && (src[start + n] == '.' || IsIdentCont(src[start + n]))
      invariant 1 <= n && start + n <= |src|
      invariant 1 + MagicLen(src[start + 1..]) == n + MagicLen(src[start + n..])
    {
      assert src[start + n..][1..] == src[start + n + 1..];
      n := n + 1;
    }
  }

  /** `b` is the source's string builder. */
  method LexStringQuoted(src: string, start: nat, quote: char) returns (r: Option<(string, nat)>)
    requires start < |src| && src[start] == quote && quote != '\\'
    ensures r == match StringBody(src[start + 1..], quote)
                 case None => None
                 case Some((v, n)) => Some((v, n + 1))
  {
    ghost var whole := StringBody(src[start + 1..], quote);
    var b := "";
    var i := 1;
    assert forall v: string :: "" + v == v;
    while start + i < |src|
      invariant 1 <= i && start + i <= |src|
      invariant whole == match StringBody(src[start + i..], quote)
                         case None => None
                         case Some((v, n)) => Some((b + v, i - 1 + n))
    {
      var c := src[start + i];
      var s := src[start + i..];
      assert s[1..] == src[start + i + 1..];
      if c == '\\' {
        if start + i + 1 >= |src| {
          return None;
        }
        var esc := src[start + i + 1];
        if esc != quote && esc != '\\' {
          return None;
        }
        assert s[2..] == src[start + i + 2..];
        assert forall v: string :: b + ([esc] + v) == (b + [esc]) + v;
        b := b + [esc];
        i := i + 2;
      } else if c == quote {
        assert b + "" == b;
        return Some((b, i + 1));
      } else {
        assert forall v: string :: b + ([c] + v) == (b + [c]) + v;
        b := b + [c];
        i := i + 1;
      }
    }
    return None;
  }

  /** What the source's loop computes for one position, branch by branch. */
  method LexOne(src: string, i: nat) returns (r: StepResult)
    requires i < |src|
    ensures r == Step(src[i..], i)
  {
    var ch := src[i];
    ghost var s := src[i..];
    assert i + 1 < |src| ==> s[1] == src[i + 1];
    assert s[1..] == src[i + 1..];
    if IsSpace(ch) {
      r := Ok((None, 1));
    } else if ch == '(' {
      r := Ok((Some(Token(LParen, "(", i)), 1));
    } else if ch == ')' {
      r := Ok((Some(Token(RParen, ")", i)), 1));
    } else if ch == ',' {
      r := Ok((Some(Token(Comma, ",", i)), 1));
    } else if ch == '.' {
      r := Ok((Some(Token(Dot, ".", i)), 1));
    } else if ch == '&' {
      if i + 1 < |src| && src[i + 1] == '&' {
        r := Ok((Some(Token(AndAnd, "&&", i)), 2));
      } else {
        r := Err(PositionedError(i, ExpectedAndAnd));
      }
    } else if ch == '|' {
      if i + 1 < |src| && src[i + 1] == '|' {
        r := Ok((Some(Token(OrOr, "||", i)), 2));
      } else {
        r := Err(PositionedError(i, ExpectedOrOr));
      }
    } else if ch == '=' {
      r := Ok((Some(Token(Op, "=", i)), 1));
    } else if ch == '!' {
      if i + 1 < |src| && src[i + 1] == '=' {
        r := Ok((Some(Token(Op, "!=", i)), 2));
      } else if i + 1 < |src| && src[i + 1] == '~' {
        r := Ok((Some(Token(Op, "!~", i)), 2));
      } else {
        r := Err(PositionedError(i, StrayBang));
      }
    } else if ch == '>' {
      if i + 1 < |src| && src[i + 1] == '=' {
        r := Ok((Some(Token(Op, ">=", i)), 2));
      } else {
        r := Ok((Some(Token(Op, ">", i)), 1));
      }
    } else if ch == '<' {
      if i + 1 < |src| && src[i + 1] == '=' {
        r := Ok((Some(Token(Op, "<=", i)), 2));
      } else {
        r := Ok((Some(Token(Op, "<", i)), 1));
      }
    } else if ch == '~' {
      r := Ok((Some(Token(Op, "~", i)), 1));
    } else if ch == '\'' || ch == '"' {
      var v := LexStringQuoted(src, i, ch);
      match v {
        case None => r := Err(PositionedError(i, BadString));
        case Some((val, n)) => r := Ok((Some(Token(Str, val, i)), n));
      }
    } else if ch == '@' {
      var n := LexMagic(src, i);
      assert s[..n] == src[i..i + n];
      if src[i..i + n] in MAGIC_NAMES {
        r := Ok((Some(Token(Magic, src[i..i + n], i)), n));
      } else {
        r := Err(PositionedError(i, UnknownMagic));
      }
    } else if IsDigit(ch) {
      var t, n := LexNumber(src, i);
      r := Ok((Some(t), n));
    } else if IsIdentStart(ch) {
      var n := LexIdent(src, i);
      assert s[..n] == src[i..i + n];
      r := Ok((Some(WordToken(src[i..i + n], i)), n));
    } else {
      r := Err(PositionedError(i, UnexpectedCharacter));
    }
  }

  method Lex(src: string) returns (r: LexResult)
    ensures r == LexFrom(src, 0)
  {
    hide Step;
    ghost var whole := LexFrom(src, 0);
    var out: seq<Token> := [];
    var i := 0;
    assert src[0..] == src;
    assert forall rest: seq<Token> :: [] + rest == rest;
    while i < |src|
      invariant i <= |src|
      invariant whole == match LexFrom(src[i..], i)
                         case Ok(rest) => Ok(out + rest)
                         case Err(e) => Err(e)
    {
      var step := LexOne(src, i);
      match step {
        case Err(e) => return Err(e);
        case Ok((t, n)) =>
          assert src[i..][n..] == src[i + n..];
          assert forall rest: seq<Token> :: out + (Emit(t) + rest) == (out + Emit(t)) + rest;
          if t.Some? {
            out := out + [t.value];
          }
          i := i + n;
      }
    }
    return Ok(out + [Token(EOF, "", i)]);
  }
}
