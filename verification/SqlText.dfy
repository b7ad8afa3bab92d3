/** The fragment of SQL the filter compiler writes, read back from its text:
    a lexer (words, `$N`, quoted strings, operator runs) and a parser with
    PostgreSQL's operator precedence: OR, AND, NOT, IS, comparison,
    IN/BETWEEN/ILIKE, `||`, from loose to tight. */
module SqlText {
  import opened Text
  import opened FilterAst
  import opened FilterLexer

  datatype Expr =
    | Col(name: string)
    | QCol(table: string, name: string)
    | Arg(n: nat)
    | Quoted(s: string)
    | False
    | Not(e: Expr)
    | Either(l: Expr, r: Expr)
    | Both(l: Expr, r: Expr)
    | Cmp(op: string, l: Expr, r: Expr)
    | Like(negate: bool, e: Expr, pattern: Expr)
    | Concat(l: Expr, r: Expr)
    | OneOf(e: Expr, items: seq<Expr>)
    | Range(e: Expr, lo: Expr, hi: Expr)
    | NullTest(e: Expr, negate: bool)
    | Subquery(sel: Expr, from: string, cond: Expr)

  datatype Tok = Id(s: string) | Kw(s: string) | Dollar(n: nat) | Lit(s: string) | Sym(s: string)

  const SQL_KEYWORDS: set<string> :=
    {"or", "and", "not", "is", "null", "ilike", "between", "in", "select", "from", "where", "false"}

  predicate IsCmpOp(s: string) { s == "=" || s == "!=" || s == ">" || s == "<" || s == ">=" || s == "<=" }

  // ---- lexing ------------------------------------------------------------------

  predicate IsOpChar(c: char) { c == '=' || c == '!' || c == '<' || c == '>' || c == '|' }

  predicate IsPunct(c: char) { c == '(' || c == ')' || c == ',' || c == '.' }

  function OpLen(s: string): (n: nat)
    ensures n <= |s|
    ensures n < |s| ==> !IsOpChar(s[n])
  {
    if s == "" || !IsOpChar(s[0]) then 0 else 1 + OpLen(s[1..])
  }

  /** After an opening quote: the value, a doubled quote standing for one, and
      the length up to and including the closing quote. */
  function QuoteBody(s: string): (r: Option<(string, nat)>)
    ensures r.Some? ==> 0 < r.value.1 <= |s|
  {
    if s == "" then None
    else if s[0] != '\'' then
      match QuoteBody(s[1..])
      case None => None
      case Some((v, n)) => Some(([s[0]] + v, n + 1))
    else if |s| > 1 && s[1] == '\'' then
      match QuoteBody(s[2..])
      case None => None
      case Some((v, n)) => Some((['\''] + v, n + 2))
    else Some(("", 1))
  }

  /** Unquoted words fold to lower case; keywords are recognised in any case. */
  function WordTok(w: string): Tok {
    var lower := ToLower(w);
    if lower in SQL_KEYWORDS then Kw(lower) else Id(lower)
  }

  /** The tokens at the front of `s` (none for a blank) and their length. */
  function SqlStep(s: string): (r: Option<(seq<Tok>, nat)>)
    requires s != ""
    ensures r.Some? ==> 0 < r.value.1 <= |s|
  {
    var c := s[0];
    if c == ' ' then Some(([], 1))
    else if IsIdentStart(c) then
      var n := IdentLen(s);
      Some(([WordTok(s[..n])], n))
    else if c == '$' then
      var n := DigitsLen(s[1..]);
      if n == 0 then None else Some(([Dollar(NumberValue(s[1..][..n]))], n + 1))
    else if c == '\'' then
      match QuoteBody(s[1..])
      case None => None
      case Some((v, n)) => Some(([Lit(v)], n + 1))
    else if IsPunct(c) then Some(([Sym([c])], 1))
    else if IsOpChar(c) then Some(([Sym(s[..OpLen(s)])], OpLen(s)))
    else None
  }

  function Prepend(a: seq<Tok>, b: Option<seq<Tok>>): Option<seq<Tok>> {
    if b.None? then None else Some(a + b.value)
  }

  function SqlLex(s: string): Option<seq<Tok>> {
    if s == "" then Some([])
    else
      match SqlStep(s)
      case None => None
      case Some((t, n)) => Prepend(t, SqlLex(s[n..]))
  }

  // ---- parsing -----------------------------------------------------------------

  type Read = Option<(Expr, nat)>

  const END := Sym("")

  function At(ts: seq<Tok>, i: nat): Tok { if i < |ts| then ts[i] else END }

  function OrAt(ts: seq<Tok>, i: nat): (r: Read)
    requires i <= |ts|
    ensures r.Some? ==> i < r.value.1 <= |ts|
    decreases |ts| - i, 12
  {
    match AndAt(ts, i)
    case None => None
    case Some((l, j)) => OrRest(ts, j, l)
  }

  function OrRest(ts: seq<Tok>, i: nat, l: Expr): (r: Read)
    requires i <= |ts|
    ensures r.Some? ==> i <= r.value.1 <= |ts|
    decreases |ts| - i, 11
  {
    if At(ts, i) != Kw("or") then Some((l, i))
    else
      match AndAt(ts, i + 1)
      case None => None
      case Some((r, j)) => OrRest(ts, j, Either(l, r))
  }

  function AndAt(ts: seq<Tok>, i: nat): (r: Read)
    requires i <= |ts|
    ensures r.Some? ==> i < r.value.1 <= |ts|
    decreases |ts| - i, 10
  {
    match NotAt(ts, i)
    case None => None
    case Some((l, j)) => AndRest(ts, j, l)
  }

  function AndRest(ts: seq<Tok>, i: nat, l: Expr): (r: Read)
    requires i <= |ts|
    ensures r.Some? ==> i <= r.value.1 <= |ts|
    decreases |ts| - i, 9
  {
    if At(ts, i) != Kw("and") then Some((l, i))
    else
      match NotAt(ts, i + 1)
      case None => None
      case Some((r, j)) => AndRest(ts, j, Both(l, r))
  }

  function NotAt(ts: seq<Tok>, i: nat): (r: Read)
    requires i <= |ts|
    ensures r.Some? ==> i < r.value.1 <= |ts|
    decreases |ts| - i, 8
  {
    if At(ts, i) == Kw("not") then
      match NotAt(ts, i + 1)
      case None => None
      case Some((e, j)) => Some((Not(e), j))
    else IsAt(ts, i)
  }

  function IsAt(ts: seq<Tok>, i: nat): (r: Read)
    requires i <= |ts|
    ensures r.Some? ==> i < r.value.1 <= |ts|
    decreases |ts| - i, 7
  {
    match CmpAt(ts, i)
    case None => None
    case Some((e, j)) =>
      if At(ts, j) != Kw("is") then Some((e, j))
      else if At(ts, j + 1) == Kw("null") then Some((NullTest(e, false), j + 2))
      else if At(ts, j + 1) == Kw("not") && At(ts, j + 2) == Kw("null") then Some((NullTest(e, true), j + 3))
      else None
  }

  predicate IsComparisonTok(t: Tok) { t.Sym? && IsCmpOp(t.s) }

  /** Comparisons do not associate. */
  function CmpAt(ts: seq<Tok>, i: nat): (r: Read)
    requires i <= |ts|
    ensures r.Some? ==> i < r.value.1 <= |ts|
    decreases |ts| - i, 6
  {
    match LikeAt(ts, i)
    case None => None
    case Some((l, j)) =>
      if !IsComparisonTok(At(ts, j)) then Some((l, j))
      else
        match LikeAt(ts, j + 1)
        case None => None
        case Some((r, k)) => Some((Cmp(ts[j].s, l, r), k))
  }

  /** ILIKE, IN and BETWEEN, on `||` operands. */
  function LikeAt(ts: seq<Tok>, i: nat): (r: Read)
    requires i <= |ts|
    ensures r.Some? ==> i < r.value.1 <= |ts|
    decreases |ts| - i, 5
  {
    match ConcatAt(ts, i)
    case None => None
    case Some((e, j)) =>
      if At(ts, j) == Kw("ilike") then
        (match ConcatAt(ts, j + 1)
         case None => None
         case Some((p, k)) => Some((Like(false, e, p), k)))
      else if At(ts, j) == Kw("not") && At(ts, j + 1) == Kw("ilike") then
        (match ConcatAt(ts, j + 2)
         case None => None
         case Some((p, k)) => Some((Like(true, e, p), k)))
      else if At(ts, j) == Kw("in") && At(ts, j + 1) == Sym("(") then
        (match ListAt(ts, j + 2, [])
         case None => None
         case Some((items, k)) => if At(ts, k) == Sym(")") then Some((OneOf(e, items), k + 1)) else None)
      else if At(ts, j) == Kw("between") then
        match ConcatAt(ts, j + 1)
        case None => None
        case Some((lo, k)) =>
          if At(ts, k) != Kw("and") then None
          else
            match ConcatAt(ts, k + 1)
            case None => None
            case Some((hi, m)) => Some((Range(e, lo, hi), m))
      else Some((e, j))
  }

  function ListAt(ts: seq<Tok>, i: nat, before: seq<Expr>): (r: Option<(seq<Expr>, nat)>)
    requires i <= |ts|
    ensures r.Some? ==> i < r.value.1 <= |ts|
    decreases |ts| - i, 13
  {
    match OrAt(ts, i)
    case None => None
    case Some((e, j)) =>
      if At(ts, j) == Sym(",") then ListAt(ts, j + 1, before + [e]) else Some((before + [e], j))
  }

  function ConcatAt(ts: seq<Tok>, i: nat): (r: Read)
    requires i <= |ts|
    ensures r.Some? ==> i < r.value.1 <= |ts|
    decreases |ts| - i, 4
  {
    match PrimAt(ts, i)
    case None => None
    case Some((l, j)) => ConcatRest(ts, j, l)
  }

  function ConcatRest(ts: seq<Tok>, i: nat, l: Expr): (r: Read)
    requires i <= |ts|
    ensures r.Some? ==> i <= r.value.1 <= |ts|
    decreases |ts| - i, 3
  {
    if At(ts, i) != Sym("||") then Some((l, i))
    else
      match PrimAt(ts, i + 1)
      case None => None
      case Some((r, j)) => ConcatRest(ts, j, Concat(l, r))
  }

  function PrimAt(ts: seq<Tok>, i: nat): (r: Read)
    requires i <= |ts|
    ensures r.Some? ==> i < r.value.1 <= |ts|
    decreases |ts| - i, 2
  {
    match At(ts, i)
    case Id(a) =>
      if At(ts, i + 1) != Sym(".") then Some((Col(a), i + 1))
      else if At(ts, i + 2).Id? then Some((QCol(a, ts[i + 2].s), i + 3))
      else None
    case Dollar(n) => Some((Arg(n), i + 1))
    case Lit(s) => Some((Quoted(s), i + 1))
    case Kw(w) => if w == "false" then Some((False, i + 1)) else None
    case Sym(w) =>
      if w != "(" || i >= |ts| then None
      else if At(ts, i + 1) == Kw("select") then SelectAt(ts, i + 1)
      else
        match OrAt(ts, i + 1)
        case None => None
        case Some((e, j)) => if At(ts, j) == Sym(")") then Some((e, j + 1)) else None
  }

  /** `SELECT expr FROM table WHERE expr )`, from the first keyword. */
  function SelectAt(ts: seq<Tok>, i: nat): (r: Read)
    requires i < |ts|
    ensures r.Some? ==> i < r.value.1 <= |ts|
    decreases |ts| - i, 1
  {
    match OrAt(ts, i + 1)
    case None => None
    case Some((sel, j)) =>
      if At(ts, j) != Kw("from") || !At(ts, j + 1).Id? || At(ts, j + 2) != Kw("where") then None
      else
        match OrAt(ts, j + 3)
        case None => None
        case Some((cond, k)) =>
          if At(ts, k) == Sym(")") then Some((Subquery(sel, ts[j + 1].s, cond), k + 1)) else None
  }

  /** The expression a whole text denotes. */
  function SqlRead(text: string): Option<Expr> {
    match SqlLex(text)
    case None => None
    case Some(ts) =>
      match OrAt(ts, 0)
      case None => None
      case Some((e, j)) => if j == |ts| then Some(e) else None
  }
}
