/** The filter AST and the errors of the front end. */
module FilterAst {
  import opened Text

  /** Nodes of a filter. A float literal is kept as the decimal fraction
      `mant / 10^scale`; an identifier keeps its last segment and, when it has
      more than one, the whole dotted path. */
  datatype Node =
    | Or(l: Node, r: Node)
    | And(l: Node, r: Node)
    | Compare(op: string, l: Node, r: Node)
    | In(target: Node, items: seq<Node>)
    | Between(target: Node, lo: Node, hi: Node)
    | IsNull(target: Node)
    | IsNotNull(target: Node)
    | Ident(name: string, dottedPath: string)
    | MagicVar(name: string)
    | StringLit(s: string)
    | IntLit(i: int)
    | FloatLit(mant: nat, scale: nat)
    | BoolLit(b: bool)
    | NullLit

  /** Why the front end rejects a source; `pos` is a byte offset in it. */
  datatype Reason =
    | ExpectedAndAnd | ExpectedOrOr | StrayBang | BadString | UnknownMagic | UnexpectedCharacter
    | UnexpectedToken | UnexpectedEnd | TrailingToken
    | ExpectedBetweenAnd | ExpectedLParen | ExpectedRParen | ExpectedCommaOrRParen | EmptyInList
    | ExpectedNull | ExpectedSegment | BadInteger | BadFloat

  datatype PositionedError = PositionedError(pos: nat, reason: Reason)

  const COMPARE_OPS: set<string> := {"=", "!=", ">", "<", ">=", "<=", "~", "!~"}
  const MAGIC_NAMES: set<string> := {"@request.auth.id", "@request.auth.collectionName", "@me"}
  const KEYWORDS: set<string> := {"true", "false", "null", "in", "between", "is", "not"}
  const MAX_INT64: int := 0x7fff_ffff_ffff_ffff

  predicate IsIdentStart(c: char) { c == '_' || 'a' <= c <= 'z' || 'A' <= c <= 'Z' }

  predicate IsIdentCont(c: char) { IsIdentStart(c) || IsDigit(c) }

  predicate IsWord(s: string) {
    s != "" && IsIdentStart(s[0]) && forall i | 0 <= i < |s| :: IsIdentCont(s[i])
  }

  /** A name the lexer keeps as an identifier. */
  predicate IsName(s: string) { IsWord(s) && ToLower(s) !in KEYWORDS }

  predicate WellFormedIdent(name: string, dottedPath: string) {
    if dottedPath == "" then IsName(name)
    else
      var path := Split(dottedPath, '.');
      && |path| >= 2
      && (forall p | p in path :: IsName(p))
      && name == path[|path| - 1]
  }

  /** The trees a filter source can denote. */
  predicate WellFormed(n: Node) {
    match n
    case Or(l, r) => WellFormed(l) && WellFormed(r)
    case And(l, r) => WellFormed(l) && WellFormed(r)
    case Compare(op, l, r) => op in COMPARE_OPS && WellFormed(l) && WellFormed(r)
    case In(t, items) => items != [] && WellFormed(t) && forall x | x in items :: WellFormed(x)
    case Between(t, lo, hi) => WellFormed(t) && WellFormed(lo) && WellFormed(hi)
    case IsNull(t) => WellFormed(t)
    case IsNotNull(t) => WellFormed(t)
    case Ident(name, path) => WellFormedIdent(name, path)
    case MagicVar(name) => name in MAGIC_NAMES
    case IntLit(i) => 0 <= i <= MAX_INT64
    case _ => true
  }
}
