/** The parser as functions of the token list and a cursor index
    (parser/expressions.go for expressions, parser/parser.go for text and
    statements). Index i stands for the parser state whose `pos` is i and
    whose current token is Cur(toks, i); every parse function returns the
    tree it built and the index it leaves the parser at, or the error it
    returns. The class in parser.dfy runs the same steps on mutable state
    and is proved to agree with these functions.

    Indices may pass the end of the list by one: after `-` the parser
    steps twice without looking, and reading past the end gives EOF. So
    every function takes i <= |toks| + 1 and promises the same of its
    result, and every successful parse of a tree moves strictly forward. */
module Grammar {
  import opened Wrappers
  import opened Strings
  import opened Tokens
  import opened Decimal
  import opened Ast
  import opened ParseErrors

  /** getCurrent: the token at i, or Go's zero Token (kind EOF) past the end. */
  function Cur(toks: seq<Token>, i: nat): (t: Token)
    ensures i < |toks| ==> t == toks[i]
    ensures i >= |toks| ==> t == Token(EOF, "", NoPos)
  {
    if i < |toks| then toks[i] else Token(EOF, "", NoPos)
  }

  /** A parsed expression and the index after it. */
  datatype Parsed = Parsed(e: Expr, next: nat)

  type ExprResult = Result<Parsed, ParseError>

  /** A successful result moved past i and stayed within the list + 1. */
  predicate Advanced(toks: seq<Token>, i: nat, r: ExprResult) {
    r.Ok? ==> i < r.value.next <= |toks| + 1
  }

  /** consumeWhitespace: the index of the first non-WS token from i. */
  function SkipWs(toks: seq<Token>, i: nat): (j: nat)
    ensures i <= j
    ensures Cur(toks, j).kind != WS
    ensures j == i || j <= |toks|
    decreases |toks| - i
  {
    if i < |toks| && toks[i].kind == WS then
      SkipWs(toks, i + 1)
    else i
  }

  /** Every token consumeWhitespace passes over is whitespace. */
  lemma {:induction false} SkipWsSkipsSpaces(toks: seq<Token>, i: nat)
    ensures forall k :: i <= k < SkipWs(toks, i) ==> k < |toks| && toks[k].kind == WS
    decreases |toks| - i
  {
    if i < |toks| && toks[i].kind == WS {
      SkipWsSkipsSpaces(toks, i + 1);
      forall k | i <= k < SkipWs(toks, i)
        ensures k < |toks| && toks[k].kind == WS
      {
        if k > i {
          assert i + 1 <= k < SkipWs(toks, i + 1);
        }
      }
    } else {
      assert SkipWs(toks, i) == i;
    }
  }

  /** The text consumeWhitespaces returns: the WS tokens' text, in order. */
  function WsText(toks: seq<Token>, i: nat): string
    decreases |toks| - i
  {
    if i < |toks| && toks[i].kind == WS then toks[i].val + WsText(toks, i + 1) else ""
  }

  /** consumeLineBreak: the index of the first non-LNBR token from i. */
  function SkipLineBreaks(toks: seq<Token>, i: nat): (j: nat)
    ensures i <= j
    ensures Cur(toks, j).kind != LNBR
    ensures j == i || j <= |toks|
    ensures forall k :: i <= k < j ==> toks[k].kind == LNBR
    decreases |toks| - i
  {
    if i < |toks| && toks[i].kind == LNBR then
      SkipLineBreaks(toks, i + 1)
    else i
  }

  /** The text consumeLineBreak returns. */
  function LineBreakText(toks: seq<Token>, i: nat): string
    decreases |toks| - i
  {
    if i < |toks| && toks[i].kind == LNBR then toks[i].val + LineBreakText(toks, i + 1) else ""
  }

  // ---------------------------------------------------------------
  // Expressions (parser/expressions.go)
  // ---------------------------------------------------------------

  /** getPrecedence: the binding level of a token as a binary operator
      (0: not one) and whether it associates to the right. The comparison
      test comes first, and the comparison range holds `&&`, `||` and `!`
      too. */
  function GetPrecedence(t: Token): (r: (int, bool))
    ensures !r.1
    ensures r.0 in {0, 10, 20}
  {
    if t.IsComparisonOp() then (10, false)
    else if t.kind == LOR || t.kind == OR then (10, false)
    else if t.kind == AND || t.kind == LAND then (20, false)
    else (0, false)
  }

  function Level(t: Token): int {
    GetPrecedence(t).0
  }

  /** parseExpr, which is parseFilterExpr. */
  function ParseExpr(toks: seq<Token>, i: nat): (r: ExprResult)
    requires i <= |toks| + 1
    ensures Advanced(toks, i, r)
    decreases |toks| + 1 - i, 7
  {
    ParseFilter(toks, i)
  }

  /** parseFilterExpr: a ternary, then any number of `-> name`. */
  function ParseFilter(toks: seq<Token>, i: nat): (r: ExprResult)
    requires i <= |toks| + 1
    ensures Advanced(toks, i, r)
    decreases |toks| + 1 - i, 6
  {
    match ParseTernary(toks, i, 1)
    case Err(e) => Err(e)
    case Ok(p) => FilterLoop(toks, p.e, p.next)
  }

  /** The loop of parseFilterExpr, from the filters' operand e at j. */
  function FilterLoop(toks: seq<Token>, e: Expr, j: nat): (r: ExprResult)
    requires j <= |toks| + 1
    ensures r.Ok? ==> j <= r.value.next <= |toks| + 1
    decreases |toks| + 1 - j, 0
  {
    var t := Cur(toks, j);
    if t.kind != RARR then Ok(Parsed(e, j))
    else
      var k := SkipWs(toks, j + 1);
      var u := Cur(toks, k);
      if u.kind != IDENT then Err(ExpectedTokensError(u.pos, [IDENT]))
      else FilterLoop(toks, FilterExpr(e, t.pos, u.pos, u.val), SkipWs(toks, k + 1))
  }

  /** parseTernaryExpr: a binary expression, then optionally `? e : e`
      or `do e else e`, each branch a full expression. */
  function ParseTernary(toks: seq<Token>, i: nat, minPrecedence: int): (r: ExprResult)
    requires i <= |toks| + 1 && minPrecedence >= 1
    ensures Advanced(toks, i, r)
    decreases |toks| + 1 - i, 5
  {
    match ParseBinary(toks, i, minPrecedence)
    case Err(e) => Err(e)
    case Ok(c) => TernaryTail(toks, c.e, c.next)
  }

  /** The part of parseTernaryExpr after the condition c, with the cursor
      at j. */
  function TernaryTail(toks: seq<Token>, c: Expr, j: nat): (r: ExprResult)
    requires j <= |toks| + 1
    ensures r.Ok? ==> j <= r.value.next <= |toks| + 1
    decreases |toks| + 1 - j, 0
  {
    var d := Cur(toks, j);
    if d.kind == QUESTION || d.kind == DO then
      match ParseExpr(toks, SkipWs(toks, j + 1))
      case Err(e) => Err(e)
      case Ok(t) =>
        var expected := if d.kind == QUESTION then COLON else ELSE;
        var u := Cur(toks, t.next);
        if u.kind != expected then Err(ExpectedTokensError(u.pos, [expected]))
        else
          match ParseExpr(toks, SkipWs(toks, t.next + 1))
          case Err(e) => Err(e)
          case Ok(f) =>
            Ok(Parsed(TernaryExpr(c, Kw(d.kind, d.pos), t.e, Kw(u.kind, u.pos), f.e), f.next))
    else Ok(Parsed(c, j))
  }

  /** parseBinaryExpr: a unary expression, then the operator loop. */
  function ParseBinary(toks: seq<Token>, i: nat, minPrecedence: int): (r: ExprResult)
    requires i <= |toks| + 1 && minPrecedence >= 1
    ensures Advanced(toks, i, r)
    decreases |toks| + 1 - i, 4
  {
    match ParseUnary(toks, i)
    case Err(e) => Err(e)
    case Ok(p) => BinaryLoop(toks, p.e, p.next, minPrecedence)
  }

  /** The operator loop of parseBinaryExpr with `left` built so far and
      the cursor at j: an operator binding at least minPrecedence is
      consumed (`is` then `not` as one ISNOT), the right operand parsed
      one level higher, and the loop goes on with the combined tree. */
  function BinaryLoop(toks: seq<Token>, left: Expr, j: nat, minPrecedence: int): (r: ExprResult)
    requires j <= |toks| + 1 && minPrecedence >= 1
    ensures r.Ok? ==> j <= r.value.next <= |toks| + 1
    decreases |toks| + 1 - j, 0
  {
    var t := Cur(toks, j);
    var (level, rightAssoc) := GetPrecedence(t);
    if level < minPrecedence then Ok(Parsed(left, j))
    else
      var k := SkipWs(toks, j + 1);
      var isNot := t.kind == IS && Cur(toks, k).kind == NOT;
      var op := if isNot then Kw(ISNOT, t.pos) else Kw(t.kind, t.pos);
      var k2 := if isNot then SkipWs(toks, k + 1) else k;
      var nextMin := if rightAssoc then level else level + 1;
      match ParseBinary(toks, k2, nextMin)
      case Err(e) => Err(e)
      case Ok(y) => BinaryLoop(toks, BinaryExpr(left, op, y.e), y.next, minPrecedence)
  }

  /** parseUnaryExpr: `not`/`!` followed by a unary expression, or a
      primary. */
  function ParseUnary(toks: seq<Token>, i: nat): (r: ExprResult)
    requires i <= |toks| + 1
    ensures Advanced(toks, i, r)
    decreases |toks| + 1 - i, 3
  {
    var t := Cur(toks, i);
    if t.kind == NOT || t.kind == EXCL then
      match ParseUnary(toks, SkipWs(toks, i + 1))
      case Err(e) => Err(e)
      case Ok(p) => Ok(Parsed(UnaryExpr(Kw(t.kind, t.pos), p.e), p.next))
    else ParsePrimary(toks, i)
  }

  /** A STR token as a string literal: its first byte is the quote, the
      bytes between first and last the value; a value shorter than two
      bytes makes the slice panic. */
  function StringLitOf(u: Token): Result<Expr, ParseError> {
    if |u.val| >= 2 then Ok(StringLit(u.pos, u.val[0], u.val[1..|u.val| - 1]))
    else Err(Panic(u.pos))
  }

  /** parsePrimary: identifiers, strings, numbers with an optional `-`,
      and parenthesised expressions; anything else is "expression
      expected". After `-`, a token that is neither a number nor a string
      is skipped and the result is the nil expression. */
  function ParsePrimary(toks: seq<Token>, i: nat): (r: ExprResult)
    requires i <= |toks| + 1
    ensures Advanced(toks, i, r)
    decreases |toks| + 1 - i, 2
  {
    var t := Cur(toks, i);
    if t.kind == IDENT then Ok(Parsed(Ident(t.pos, t.val), SkipWs(toks, i + 1)))
    else if t.kind == STR then
      match StringLitOf(t)
      case Err(e) => Err(e)
      case Ok(lit) => Ok(Parsed(lit, SkipWs(toks, i + 1)))
    else if t.kind == MINUS || t.kind == INT || t.kind == FLOAT then
      var negative := t.kind == MINUS;
      var j := if negative then i + 1 else i;
      var u := Cur(toks, j);
      if u.kind == INT || u.kind == FLOAT then
        match ParseDecimal(u.val)
        case None => Err(Panic(u.pos))
        case Some(v) => Ok(Parsed(NumberLit(u.pos, if negative then Neg(v) else v), SkipWs(toks, j + 1)))
      else if u.kind == STR then
        match StringLitOf(u)
        case Err(e) => Err(e)
        case Ok(lit) => Ok(Parsed(lit, SkipWs(toks, j + 1)))
      else Ok(Parsed(Nil, SkipWs(toks, j + 1)))
    else if t.kind == LPAREN then
      match ParseExpr(toks, i + 1)
      case Err(e) => Err(e)
      case Ok(p) =>
        var u := Cur(toks, p.next);
        if u.kind != RPAREN then Err(ExpectedTokensError(u.pos, [RPAREN]))
        else Ok(Parsed(ParenExpr(p.e, t.pos, u.pos), SkipWs(toks, p.next + 1)))
    else Err(Error(t.pos, ExpressionExpected))
  }

  // ---------------------------------------------------------------
  // Text and statements (parser/parser.go)
  // ---------------------------------------------------------------

  /** A parsed node, or no node (the whitespace before `{% end`), and the
      index after it. */
  datatype NodeStep = NodeStep(node: Option<Node>, next: nat)

  type NodeResult = Result<NodeStep, ParseError>

  /** The tokens at i+1 (and i+2) are `{% end` or `{% <ws> end`. */
  predicate EndTagAhead(toks: seq<Token>, i: nat) {
    (i + 2 < |toks| && toks[i + 2].kind == END)
    || (i + 3 < |toks| && toks[i + 2].kind == WS && toks[i + 3].kind == END)
  }

  /** The current token is WS and the next one opens a statement tag. */
  predicate WsBeforeStmt(toks: seq<Token>, i: nat) {
    i < |toks| && toks[i].kind == WS && i + 1 < |toks| && toks[i + 1].kind == LSTMT
  }

  /** Whether parseText takes the token at i into the text run. */
  predicate InText(toks: seq<Token>, i: nat) {
    i < |toks| && toks[i].kind in {TEXT, LNBR, WS} && !WsBeforeStmt(toks, i)
  }

  /** Where the run of text tokens from i ends. */
  function TextEnd(toks: seq<Token>, i: nat): (j: nat)
    ensures i <= j
    ensures !InText(toks, j)
    ensures forall k :: i <= k < j ==> InText(toks, k)
    ensures i <= |toks| ==> j <= |toks|
    decreases |toks| - i
  {
    if InText(toks, i) then TextEnd(toks, i + 1) else i
  }

  /** The text of each token in toks[i..j]. */
  function Pieces(toks: seq<Token>, i: nat, j: nat): (r: seq<string>)
    requires i <= j <= |toks|
    ensures |r| == j - i
    ensures forall k :: 0 <= k < |r| ==> r[k] == toks[i + k].val
    decreases j - i
  {
    if i == j then [] else Pieces(toks, i, j - 1) + [toks[j - 1].val]
  }

  /** parseText: the maximal run of TEXT, LNBR and WS tokens (stopping at
      WS before `{%`) as one TextNode; its position is that of the token
      after the run. */
  function ParseText(toks: seq<Token>, i: nat): (r: NodeStep)
    requires i <= |toks|
    ensures r.node.Some? && r.node.value.TextNode?
    ensures r.next == TextEnd(toks, i)
  {
    var j := TextEnd(toks, i);
    NodeStep(Some(TextNode(Cur(toks, j).pos, Pieces(toks, i, j))), j)
  }

  /** parseExprNode: `{{`, whitespace, an expression, `}}`. */
  function ParseExprNode(toks: seq<Token>, i: nat): (r: NodeResult)
    requires i < |toks|
    ensures r.Ok? ==> i < r.value.next <= |toks| && r.value.node.Some?
  {
    match ParseExpr(toks, SkipWs(toks, i + 1))
    case Err(e) => Err(e)
    case Ok(p) =>
      var u := Cur(toks, p.next);
      if u.kind != REXPR then Err(ExpectedTokensError(u.pos, [REXPR]))
      else Ok(NodeStep(Some(ExprNode(p.e)), p.next + 1))
  }

  /** parseNode: text, an expression tag, or a statement tag (with the
      whitespace before it as its PreWs); whitespace before `{% end`
      yields no node and is not consumed; any other token is an error. */
  function ParseNode(toks: seq<Token>, i: nat): (r: NodeResult)
    requires i <= |toks| + 1
    ensures r.Ok? ==> r.value.next <= |toks| + 1
    ensures r.Ok? && r.value.node.Some? ==> i < r.value.next
    ensures r.Ok? && r.value.node.None? ==> r.value.next == i
    decreases |toks| + 1 - i, 2
  {
    var t := Cur(toks, i);
    if t.kind == TEXT || t.kind == LNBR then Ok(ParseText(toks, i))
    else if t.kind == WS then
      if WsBeforeStmt(toks, i) then
        if EndTagAhead(toks, i) then Ok(NodeStep(None, i))
        else ParseStmt(toks, i + 1, t.val)
      else Ok(ParseText(toks, i))
    else if t.kind == LEXPR then ParseExprNode(toks, i)
    else if t.kind == LSTMT then ParseStmt(toks, i, "")
    else Err(UnexpectedToken)
  }

  /** parseStmt: `{%`, whitespace, then `if` or `genif`; any other
      keyword is an error. */
  function ParseStmt(toks: seq<Token>, i: nat, preWs: string): (r: NodeResult)
    requires i <= |toks| + 1
    ensures r.Ok? ==> i < r.value.next <= |toks| + 1 && r.value.node.Some?
    decreases |toks| + 1 - i, 1
  {
    var t := Cur(toks, i);
    if t.kind != LSTMT then Err(ExpectedTokensError(t.pos, [LSTMT]))
    else
      var k := SkipWs(toks, i + 1);
      var u := Cur(toks, k);
      if u.kind == IF then ParseIf(toks, k, preWs)
      else if u.kind == GENIF then ParseGenIf(toks, k)
      else Err(UnknownStatement)
  }

  /** The closing `{% end %}` of an if, from the whitespace before it:
      the recorded whitespace and the index after the tag and the line
      breaks that follow it. */
  function ParseEndTag(toks: seq<Token>, i: nat): (r: Result<(string, nat), ParseError>)
    requires i <= |toks| + 1
    ensures r.Ok? ==> i < r.value.1 <= |toks| + 1
  {
    var preEnd := WsText(toks, i);
    var a := SkipWs(toks, i);
    var t := Cur(toks, a);
    if t.kind != LSTMT then Err(ExpectedTokensError(t.pos, [LSTMT]))
    else
      var b := SkipWs(toks, a + 1);
      var u := Cur(toks, b);
      if u.kind != END then Err(ExpectedTokensError(u.pos, [END]))
      else
        var c := SkipWs(toks, b + 1);
        var w := Cur(toks, c);
        if w.kind != RSTMT then Err(ExpectedTokensError(w.pos, [RSTMT]))
        else Ok((preEnd, SkipLineBreaks(toks, SkipWs(toks, c + 1))))
  }

  /** parseIfStmt from the `if` keyword at i: the condition, `%}`, the
      line breaks after it, the body, then `{% end %}`. */
  function ParseIf(toks: seq<Token>, i: nat, preWs: string): (r: NodeResult)
    requires i < |toks|
    ensures r.Ok? ==> i < r.value.next <= |toks| + 1 && r.value.node.Some?
    decreases |toks| + 1 - i, 0
  {
    match ParseExpr(toks, SkipWs(toks, i + 1))
    case Err(e) => Err(e)
    case Ok(c) =>
      var u := Cur(toks, c.next);
      if u.kind != RSTMT then Err(ExpectedTokensError(u.pos, [RSTMT]))
      else
        match ParseBody(toks, SkipLineBreaks(toks, c.next + 1), [])
        case Err(e) => Err(e)
        case Ok(body) =>
          match ParseEndTag(toks, body.1)
          case Err(e) => Err(e)
          case Ok(end) =>
            var node := IfNode(StmtTagWithExpr(StmtTag(preWs), c.e), body.0, [],
                               ElseNode(StmtTag(""), []), StmtTag(end.0));
            Ok(NodeStep(Some(node), end.1))
  }

  /** parseGenIfStmt from the `genif` keyword at i: a bodyless tag. */
  function ParseGenIf(toks: seq<Token>, i: nat): (r: NodeResult)
    requires i < |toks|
    ensures r.Ok? ==> i < r.value.next <= |toks| + 1 && r.value.node.Some?
  {
    var kw := Kw(GENIF, toks[i].pos);
    match ParseExpr(toks, SkipWs(toks, i + 1))
    case Err(e) => Err(e)
    case Ok(c) =>
      var u := Cur(toks, c.next);
      if u.kind != RSTMT then Err(ExpectedTokensError(u.pos, [RSTMT]))
      else
        var node := StmtNode(StmtTagWithKw(StmtTag(""), kw), c.e);
        Ok(NodeStep(Some(node), SkipLineBreaks(toks, SkipWs(toks, c.next + 1))))
  }

  /** parseBody: nodes until the lookahead shows `{% end` (or
      `{% <ws> end`) one token ahead, or a node step yields no node. */
  function ParseBody(toks: seq<Token>, i: nat, body: seq<Node>): (r: Result<(seq<Node>, nat), ParseError>)
    requires i <= |toks| + 1
    ensures r.Ok? ==> i <= r.value.1 <= |toks| + 1
    decreases |toks| + 1 - i, 3
  {
    if BodyEnds(toks, i) then Ok((body, i))
    else
      match ParseNode(toks, i)
      case Err(e) => Err(e)
      case Ok(s) =>
        if s.node.None? then Ok((body, i))
        else ParseBody(toks, s.next, body + [s.node.value])
  }

  /** The test at the top of parseBody's loop. */
  predicate BodyEnds(toks: seq<Token>, i: nat) {
    (i + 1 < |toks| && toks[i + 1].kind == END)
    || (i + 2 < |toks| && toks[i + 1].kind == WS && toks[i + 2].kind == END)
  }

  /** Parse from index i with the nodes collected so far: stop when the
      index reaches the end of the list, return the first error, skip
      the token when a step yields no node. */
  function ParseFrom(toks: seq<Token>, i: nat, nodes: seq<Node>): (r: Result<seq<Node>, ParseError>)
    requires i <= |toks| + 1
    ensures r.Ok? ==> nodes <= r.value
    ensures i < |toks| && ParseNode(toks, i).Err? ==> r == Err(ParseNode(toks, i).error)
    decreases |toks| + 1 - i
  {
    if i >= |toks| then Ok(nodes)
    else
      match ParseNode(toks, i)
      case Err(e) => Err(e)
      case Ok(s) =>
        if s.node.None? then ParseFrom(toks, i + 1, nodes)
        else ParseFrom(toks, s.next, nodes + [s.node.value])
  }

  /** Parse: New positions the parser on the first token. */
  function Parse(toks: seq<Token>): (r: Result<seq<Node>, ParseError>)
    ensures toks == [] ==> r == Ok([])
    ensures toks != [] && ParseNode(toks, 0).Err? ==> r == Err(ParseNode(toks, 0).error)
  {
    ParseFrom(toks, 0, [])
  }
}
