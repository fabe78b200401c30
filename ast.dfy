/** The syntax tree the parser builds (parser/ast.go). Go's Node and Expr
    interfaces are closed sets of pointer types; here each is a datatype
    whose constructors are exactly those types, so a value of the tree
    owns its children. */
module Ast {
  import opened Tokens
  import opened Decimal

  /** A keyword or operator token kept in the tree: its kind and where it
      was written. */
  datatype Kw = Kw(kind: Kind, pos: Position)

  /** The expressions. `Nil` is the nil Expr that parsePrimary returns,
      without an error, when `-` is followed by something other than a
      number or a string. */
  datatype Expr =
    | NumberLit(pos: Position, number: Number)
    | StringLit(pos: Position, quote: char, text: string)
    | Ident(pos: Position, name: string)
    | UnaryExpr(op: Kw, expr: Expr)
    | BinaryExpr(x: Expr, op: Kw, y: Expr)
    | TernaryExpr(condition: Expr, doKw: Kw, trueExpr: Expr, elseKw: Kw, falseExpr: Expr)
    | ParenExpr(expr: Expr, lparen: Position, rparen: Position)
    | FilterExpr(expr: Expr, opPos: Position, filterPos: Position, filterName: string)
    | Nil

  /** The whitespace written before a statement tag. */
  datatype StmtTag = StmtTag(preWs: string)

  datatype StmtTagWithKw = StmtTagWithKw(tag: StmtTag, kw: Kw)

  datatype StmtTagWithExpr = StmtTagWithExpr(tag: StmtTag, expr: Expr)

  datatype ElseIfNode = ElseIfNode(elseIfTag: StmtTagWithExpr, body: seq<Node>)

  datatype ElseNode = ElseNode(elseTag: StmtTag, body: seq<Node>)

  datatype CaseClause = CaseClause(caseTag: StmtTagWithExpr, body: seq<Node>)

  /** The nodes of a template. */
  datatype Node =
    | CommNode(preWs: string, pos: Position, val: string, postLB: string)
    | TextNode(pos: Position, pieces: seq<string>)
    | ExprNode(body: Expr)
    | StmtNode(tagKw: StmtTagWithKw, expr: Expr)
    | IfNode(ifTag: StmtTagWithExpr, mainBody: seq<Node>, elseIfs: seq<ElseIfNode>,
             elseBody: ElseNode, endTag: StmtTag)
    | SwitchNode(switchTag: StmtTagWithExpr, cases: seq<CaseClause>, defaultCase: seq<Node>,
                 endTag: StmtTag)

  /** The position Go's zero value of token.Position holds. */
  const NoPos: Position := Position(0, 0, 0)

  /** The tree with every recorded position replaced by NoPos: two trees
      with the same erasure differ only in where they were written. */
  function Erase(e: Expr): (r: Expr)
    ensures r.NumberLit? <==> e.NumberLit?
    ensures r.StringLit? <==> e.StringLit?
    ensures r.Ident? <==> e.Ident?
    ensures r.UnaryExpr? <==> e.UnaryExpr?
    ensures r.BinaryExpr? <==> e.BinaryExpr?
    ensures r.TernaryExpr? <==> e.TernaryExpr?
    ensures r.ParenExpr? <==> e.ParenExpr?
    ensures r.FilterExpr? <==> e.FilterExpr?
    ensures r.Nil? <==> e.Nil?
  {
    match e
    case NumberLit(_, n) => NumberLit(NoPos, n)
    case StringLit(_, q, s) => StringLit(NoPos, q, s)
    case Ident(_, name) => Ident(NoPos, name)
    case UnaryExpr(op, x) => UnaryExpr(Kw(op.kind, NoPos), Erase(x))
    case BinaryExpr(x, op, y) => BinaryExpr(Erase(x), Kw(op.kind, NoPos), Erase(y))
    case TernaryExpr(c, d, t, el, f) =>
      TernaryExpr(Erase(c), Kw(d.kind, NoPos), Erase(t), Kw(el.kind, NoPos), Erase(f))
    case ParenExpr(x, _, _) => ParenExpr(Erase(x), NoPos, NoPos)
    case FilterExpr(x, _, _, name) => FilterExpr(Erase(x), NoPos, NoPos, name)
    case Nil => Nil
  }
}
