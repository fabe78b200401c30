/** The parser object: a cursor over the token list that the parse
    methods advance (parser/parser.go, parser/expressions.go). Each method
    is proved to return what the matching Grammar function returns and to
    leave the cursor where that function says. */
module Parser {
  import opened Wrappers
  import opened Tokens
  import opened Decimal
  import opened Ast
  import opened ParseErrors
  import Grammar

  /** What a method returned, as a Grammar result: on success the
      cursor's index is the index the function reports. */
  function ExprOutcome(r: Result<Expr, ParseError>, pos: nat): Grammar.ExprResult {
    match r
    case Ok(e) => Ok(Grammar.Parsed(e, pos))
    case Err(x) => Err(x)
  }

  function NodeOutcome(r: Result<Option<Node>, ParseError>, pos: nat): Grammar.NodeResult {
    match r
    case Ok(n) => Ok(Grammar.NodeStep(n, pos))
    case Err(x) => Err(x)
  }

  class Parser {
    const tokens: seq<Token>
    var pos: nat
    var current: Token
    var nodes: seq<Node>

    /** The cursor is at most one past the end and `current` is the token
        under it. */
    ghost predicate Valid()
      reads this
    {
      pos <= |tokens| + 1 && current == Grammar.Cur(tokens, pos)
    }

    /** New: the cursor starts before the first token and steps onto it. */
    constructor (toks: seq<Token>)
      ensures tokens == toks && pos == 0 && nodes == [] && Valid()
    {
      tokens := toks;
      pos := 0;
      nodes := [];
      current := Grammar.Cur(toks, 0);
    }

    /** getCurrent. */
    function GetCurrent(): (t: Token)
      reads this
      ensures pos < |tokens| ==> t == tokens[pos]
      ensures pos >= |tokens| ==> t.kind == EOF
    {
      if pos < |tokens| then tokens[pos] else Token(EOF, "", NoPos)
    }

    /** next: one token forward. */
    method Next() returns (t: Token)
      requires pos <= |tokens|
      modifies this
      ensures pos == old(pos) + 1 && Valid() && t == current
      ensures nodes == old(nodes)
    {
      pos := pos + 1;
      current := GetCurrent();
      t := current;
    }

    /** consumeWhitespaces: skip WS tokens, returning their text. */
    method ConsumeWhitespaces() returns (s: string)
      requires Valid()
      modifies this
      ensures Valid() && nodes == old(nodes)
      ensures pos == Grammar.SkipWs(tokens, old(pos))
      ensures s == Grammar.WsText(tokens, old(pos))
    {
      s := "";
      while current.kind == WS
        invariant Valid() && nodes == old(nodes) && old(pos) <= pos
        invariant Grammar.SkipWs(tokens, pos) == Grammar.SkipWs(tokens, old(pos))
        invariant s + Grammar.WsText(tokens, pos) == Grammar.WsText(tokens, old(pos))
        decreases |tokens| + 1 - pos
      {
        s := s + current.val;
        var _ := Next();
      }
    }

    /** consumeLineBreak: skip LNBR tokens, returning their text. */
    method ConsumeLineBreak() returns (s: string)
      requires Valid()
      modifies this
      ensures Valid() && nodes == old(nodes)
      ensures pos == Grammar.SkipLineBreaks(tokens, old(pos))
      ensures s == Grammar.LineBreakText(tokens, old(pos))
    {
      s := "";
      while current.kind == LNBR
        invariant Valid() && nodes == old(nodes) && old(pos) <= pos
        invariant Grammar.SkipLineBreaks(tokens, pos) == Grammar.SkipLineBreaks(tokens, old(pos))
        invariant s + Grammar.LineBreakText(tokens, pos) == Grammar.LineBreakText(tokens, old(pos))
        decreases |tokens| + 1 - pos
      {
        s := s + current.val;
        var _ := Next();
      }
    }

    // -------------------------------------------------------------
    // Expressions
    // -------------------------------------------------------------

    method ParseExpr() returns (r: Result<Expr, ParseError>)
      requires Valid()
      modifies this
      ensures Valid() && nodes == old(nodes)
      ensures ExprOutcome(r, pos) == Grammar.ParseExpr(tokens, old(pos))
      decreases |tokens| + 1 - pos, 7
    {
      r := ParseFilterExpr();
    }

    method ParseFilterExpr() returns (r: Result<Expr, ParseError>)
      requires Valid()
      modifies this
      ensures Valid() && nodes == old(nodes)
      ensures ExprOutcome(r, pos) == Grammar.ParseFilter(tokens, old(pos))
      decreases |tokens| + 1 - pos, 6
    {
      var t := ParseTernaryExpr(1);
      if t.Err? {
        return t;
      }
      var expr := t.value;
      while current.kind == RARR
        invariant Valid() && nodes == old(nodes)
        invariant Grammar.FilterLoop(tokens, expr, pos) == Grammar.ParseFilter(tokens, old(pos))
        decreases |tokens| + 1 - pos
      {
        var opPos := current.pos;
        var _ := Next();
        var _ := ConsumeWhitespaces();
        if current.kind != IDENT {
          return Err(ExpectedTokensError(current.pos, [IDENT]));
        }
        var ident := current;
        var _ := Next();
        var _ := ConsumeWhitespaces();
        expr := FilterExpr(expr, opPos, ident.pos, ident.val);
      }
      r := Ok(expr);
    }

    method ParseTernaryExpr(minPrecedence: int) returns (r: Result<Expr, ParseError>)
      requires Valid() && minPrecedence >= 1
      modifies this
      ensures Valid() && nodes == old(nodes)
      ensures ExprOutcome(r, pos) == Grammar.ParseTernary(tokens, old(pos), minPrecedence)
      decreases |tokens| + 1 - pos, 5
    {
      var condition := ParseBinaryExpr(minPrecedence);
      if condition.Err? {
        return condition;
      }
      r := ParseTernaryTail(condition.value);
    }

    /** The `? e : e` or `do e else e` after a ternary's condition. */
    method ParseTernaryTail(condition: Expr) returns (r: Result<Expr, ParseError>)
      requires Valid()
      modifies this
      ensures Valid() && nodes == old(nodes)
      ensures ExprOutcome(r, pos) == Grammar.TernaryTail(tokens, condition, old(pos))
      decreases |tokens| + 1 - pos, 0
    {
      var doTok := current;
      if !(doTok.kind == QUESTION || doTok.kind == DO) {
        return Ok(condition);
      }
      var _ := Next();
      var _ := ConsumeWhitespaces();
      var trueExpr := ParseExpr();
      if trueExpr.Err? {
        return trueExpr;
      }
      var expectedElse := if doTok.kind == QUESTION then COLON else ELSE;
      if current.kind != expectedElse {
        return Err(ExpectedTokensError(current.pos, [expectedElse]));
      }
      var elseTok := current;
      var _ := Next();
      var _ := ConsumeWhitespaces();
      var falseExpr := ParseExpr();
      if falseExpr.Err? {
        return falseExpr;
      }
      r := Ok(TernaryExpr(condition, Kw(doTok.kind, doTok.pos), trueExpr.value,
                          Kw(elseTok.kind, elseTok.pos), falseExpr.value));
    }

    method ParseUnaryExpr() returns (r: Result<Expr, ParseError>)
      requires Valid()
      modifies this
      ensures Valid() && nodes == old(nodes)
      ensures ExprOutcome(r, pos) == Grammar.ParseUnary(tokens, old(pos))
      decreases |tokens| + 1 - pos, 3
    {
      if current.kind == NOT || current.kind == EXCL {
        var op := current;
        var _ := Next();
        var _ := ConsumeWhitespaces();
        var operand := ParseUnaryExpr();
        if operand.Err? {
          return operand;
        }
        return Ok(UnaryExpr(Kw(op.kind, op.pos), operand.value));
      }
      r := ParsePrimary();
    }

    method ParseBinaryExpr(minPrecedence: int) returns (r: Result<Expr, ParseError>)
      requires Valid() && minPrecedence >= 1
      modifies this
      ensures Valid() && nodes == old(nodes)
      ensures ExprOutcome(r, pos) == Grammar.ParseBinary(tokens, old(pos), minPrecedence)
      decreases |tokens| + 1 - pos, 4
    {
      var first := ParseUnaryExpr();
      if first.Err? {
        return first;
      }
      var left := first.value;
      while true
        invariant Valid() && nodes == old(nodes) && old(pos) < pos
        invariant Grammar.BinaryLoop(tokens, left, pos, minPrecedence)
               == Grammar.ParseBinary(tokens, old(pos), minPrecedence)
        decreases |tokens| + 1 - pos
      {
        var (opPrecedence, isRightAssoc) := Grammar.GetPrecedence(current);
        if opPrecedence < minPrecedence {
          break;
        }
        var op := Kw(current.kind, current.pos);
        var _ := Next();
        var _ := ConsumeWhitespaces();
        if op.kind == IS && current.kind == NOT {
          // `is` has precedence 0, so the loop stopped before reaching it:
          // the source's `is not` merging never runs.
          assert false;
        }
        var nextMin := if isRightAssoc then opPrecedence else opPrecedence + 1;
        var right := ParseBinaryExpr(nextMin);
        if right.Err? {
          return right;
        }
        left := BinaryExpr(left, op, right.value);
      }
      r := Ok(left);
    }

    /** The number case of parsePrimary: an optional `-`, then a number
        (negated), a string, or, for anything else, no expression. */
    method ParseNumberLit() returns (r: Result<Expr, ParseError>)
      requires Valid() && current.kind in {MINUS, INT, FLOAT}
      modifies this
      ensures Valid() && nodes == old(nodes)
      ensures ExprOutcome(r, pos) == Grammar.ParsePrimary(tokens, old(pos))
    {
      var negative := false;
      if current.kind == MINUS {
        var _ := Next();
        negative := true;
      }
      var lit: Expr := Nil;
      if current.kind == INT || current.kind == FLOAT {
        var v := ParseDecimal(current.val);
        if v.None? {
          return Err(Panic(current.pos));
        }
        lit := NumberLit(current.pos, if negative then Neg(v.value) else v.value);
      } else if current.kind == STR {
        var s := Grammar.StringLitOf(current);
        if s.Err? {
          return s;
        }
        lit := s.value;
      }
      var _ := Next();
      var _ := ConsumeWhitespaces();
      r := Ok(lit);
    }

    method ParsePrimary() returns (r: Result<Expr, ParseError>)
      requires Valid()
      modifies this
      ensures Valid() && nodes == old(nodes)
      ensures ExprOutcome(r, pos) == Grammar.ParsePrimary(tokens, old(pos))
      decreases |tokens| + 1 - pos, 2
    {
      var t := current;
      if t.kind == IDENT {
        var _ := Next();
        var _ := ConsumeWhitespaces();
        return Ok(Ident(t.pos, t.val));
      } else if t.kind == STR {
        var lit := Grammar.StringLitOf(t);
        if lit.Err? {
          return lit;
        }
        var _ := Next();
        var _ := ConsumeWhitespaces();
        return lit;
      } else if t.kind == MINUS || t.kind == INT || t.kind == FLOAT {
        r := ParseNumberLit();
      } else if t.kind == LPAREN {
        var _ := Next();
        var e := ParseExpr();
        if e.Err? {
          return e;
        }
        if current.kind != RPAREN {
          return Err(ExpectedTokensError(current.pos, [RPAREN]));
        }
        var rparen := current.pos;
        var _ := Next();
        var _ := ConsumeWhitespaces();
        r := Ok(ParenExpr(e.value, t.pos, rparen));
      } else {
        r := Err(Error(t.pos, ExpressionExpected));
      }
    }

    // -------------------------------------------------------------
    // Text and statements
    // -------------------------------------------------------------

    /** parseExprNode: `{{`, whitespace, an expression, `}}`. */
    method ParseExprNode() returns (r: Result<Option<Node>, ParseError>)
      requires Valid() && pos < |tokens|
      modifies this
      ensures Valid() && nodes == old(nodes)
      ensures NodeOutcome(r, pos) == Grammar.ParseExprNode(tokens, old(pos))
    {
      var _ := Next();
      var _ := ConsumeWhitespaces();
      var body := ParseExpr();
      if body.Err? {
        return Err(body.error);
      }
      if current.kind != REXPR {
        return Err(ExpectedTokensError(current.pos, [REXPR]));
      }
      var _ := Next();
      r := Ok(Some(ExprNode(body.value)));
    }

    /** parseText: collect the run of text tokens into one node. */
    method ParseText() returns (n: Node)
      requires Valid() && pos <= |tokens|
      modifies this
      ensures Valid() && nodes == old(nodes)
      ensures Grammar.ParseText(tokens, old(pos)) == Grammar.NodeStep(Some(n), pos)
    {
      var res: seq<string> := [];
      while Grammar.InText(tokens, pos)
        invariant Valid() && nodes == old(nodes) && old(pos) <= pos <= |tokens|
        invariant Grammar.TextEnd(tokens, pos) == Grammar.TextEnd(tokens, old(pos))
        invariant res == Grammar.Pieces(tokens, old(pos), pos)
        decreases |tokens| - pos
      {
        res := res + [current.val];
        var _ := Next();
      }
      n := TextNode(current.pos, res);
    }

    /** parseNode: dispatch on the current token. */
    method ParseNode() returns (r: Result<Option<Node>, ParseError>)
      requires Valid()
      modifies this
      ensures Valid() && nodes == old(nodes)
      ensures NodeOutcome(r, pos) == Grammar.ParseNode(tokens, old(pos))
      decreases |tokens| + 1 - pos, 2
    {
      var t := current;
      if t.kind == TEXT || t.kind == LNBR {
        var n := ParseText();
        r := Ok(Some(n));
      } else if t.kind == WS {
        if pos + 1 < |tokens| && tokens[pos + 1].kind == LSTMT {
          if (pos + 2 < |tokens| && tokens[pos + 2].kind == END)
             || (pos + 3 < |tokens| && tokens[pos + 2].kind == WS && tokens[pos + 3].kind == END) {
            return Ok(None);
          }
          var ws := t.val;
          var _ := Next();
          r := ParseStmt(ws);
        } else {
          var n := ParseText();
          r := Ok(Some(n));
        }
      } else if t.kind == LEXPR {
        r := ParseExprNode();
      } else if t.kind == LSTMT {
        r := ParseStmt("");
      } else {
        r := Err(UnexpectedToken);
      }
    }

    /** parseStmt: `{%`, whitespace, then the keyword's statement. */
    method ParseStmt(preBlockWs: string) returns (r: Result<Option<Node>, ParseError>)
      requires Valid()
      modifies this
      ensures Valid() && nodes == old(nodes)
      ensures NodeOutcome(r, pos) == Grammar.ParseStmt(tokens, old(pos), preBlockWs)
      decreases |tokens| + 1 - pos, 1
    {
      if current.kind != LSTMT {
        return Err(ExpectedTokensError(current.pos, [LSTMT]));
      }
      var _ := Next();
      var _ := ConsumeWhitespaces();
      if current.kind == IF {
        r := ParseIfStmt(preBlockWs);
      } else if current.kind == GENIF {
        r := ParseGenIfStmt();
      } else {
        r := Err(UnknownStatement);
      }
    }

    /** parseIfStmt, from the `if` keyword. */
    method ParseIfStmt(preBlockWs: string) returns (r: Result<Option<Node>, ParseError>)
      requires Valid() && pos < |tokens|
      modifies this
      ensures Valid() && nodes == old(nodes)
      ensures NodeOutcome(r, pos) == Grammar.ParseIf(tokens, old(pos), preBlockWs)
      decreases |tokens| + 1 - pos, 0
    {
      var _ := Next();
      var _ := ConsumeWhitespaces();
      var cond := ParseExpr();
      if cond.Err? {
        return Err(cond.error);
      }
      if current.kind != RSTMT {
        return Err(ExpectedTokensError(current.pos, [RSTMT]));
      }
      var _ := Next();
      var _ := ConsumeLineBreak();
      var body := ParseBody();
      if body.Err? {
        return Err(body.error);
      }
      var preEndTagWs := ParseEndTag();
      if preEndTagWs.Err? {
        return Err(preEndTagWs.error);
      }
      r := Ok(Some(IfNode(StmtTagWithExpr(StmtTag(preBlockWs), cond.value), body.value, [],
                          ElseNode(StmtTag(""), []), StmtTag(preEndTagWs.value))));
    }

    /** The closing `{% end %}` of parseIfStmt, with the whitespace before
        it (returned) and the whitespace and line breaks after it. */
    method ParseEndTag() returns (r: Result<string, ParseError>)
      requires Valid()
      modifies this
      ensures Valid() && nodes == old(nodes)
      ensures r.Ok? ==> Grammar.ParseEndTag(tokens, old(pos)) == Ok((r.value, pos))
      ensures r.Err? ==> Grammar.ParseEndTag(tokens, old(pos)) == Err(r.error)
    {
      var preEndTagWs := ConsumeWhitespaces();
      if current.kind != LSTMT {
        return Err(ExpectedTokensError(current.pos, [LSTMT]));
      }
      var _ := Next();
      var _ := ConsumeWhitespaces();
      if current.kind != END {
        return Err(ExpectedTokensError(current.pos, [END]));
      }
      var _ := Next();
      var _ := ConsumeWhitespaces();
      if current.kind != RSTMT {
        return Err(ExpectedTokensError(current.pos, [RSTMT]));
      }
      var _ := Next();
      var _ := ConsumeWhitespaces();
      var _ := ConsumeLineBreak();
      r := Ok(preEndTagWs);
    }

    /** parseGenIfStmt, from the `genif` keyword. */
    method ParseGenIfStmt() returns (r: Result<Option<Node>, ParseError>)
      requires Valid() && pos < |tokens|
      modifies this
      ensures Valid() && nodes == old(nodes)
      ensures NodeOutcome(r, pos) == Grammar.ParseGenIf(tokens, old(pos))
    {
      var kw := Kw(GENIF, current.pos);
      var _ := Next();
      var _ := ConsumeWhitespaces();
      var body := ParseExpr();
      if body.Err? {
        return Err(body.error);
      }
      if current.kind != RSTMT {
        return Err(ExpectedTokensError(current.pos, [RSTMT]));
      }
      var _ := Next();
      var _ := ConsumeWhitespaces();
      var _ := ConsumeLineBreak();
      r := Ok(Some(StmtNode(StmtTagWithKw(StmtTag(""), kw), body.value)));
    }

    /** parseBody: nodes until `{% end` is one token ahead. */
    method ParseBody() returns (r: Result<seq<Node>, ParseError>)
      requires Valid()
      modifies this
      ensures Valid() && nodes == old(nodes)
      ensures r.Ok? ==> Grammar.ParseBody(tokens, old(pos), []) == Ok((r.value, pos))
      ensures r.Err? ==> Grammar.ParseBody(tokens, old(pos), []) == Err(r.error)
      decreases |tokens| + 1 - pos, 3
    {
      var body: seq<Node> := [];
      while true
        invariant Valid() && nodes == old(nodes) && old(pos) <= pos
        invariant Grammar.ParseBody(tokens, pos, body) == Grammar.ParseBody(tokens, old(pos), [])
        decreases |tokens| + 1 - pos
      {
        if (pos + 1 < |tokens| && tokens[pos + 1].kind == END)
           || (pos + 2 < |tokens| && tokens[pos + 1].kind == WS && tokens[pos + 2].kind == END) {
          break;
        }
        var node := ParseNode();
        if node.Err? {
          return Err(node.error);
        }
        if node.value.None? {
          break;
        }
        body := body + [node.value.value];
      }
      r := Ok(body);
    }

    /** Parse: nodes until the cursor reaches the end of the list; a step
        that yields no node moves one token on. The nodes are collected in
        the parser's own list. */
    method Parse() returns (r: Result<seq<Node>, ParseError>)
      requires Valid()
      modifies this
      ensures Valid()
      ensures r == Grammar.ParseFrom(tokens, old(pos), old(nodes))
      ensures r.Ok? ==> nodes == r.value
    {
      while pos < |tokens|
        invariant Valid()
        invariant Grammar.ParseFrom(tokens, pos, nodes) == Grammar.ParseFrom(tokens, old(pos), old(nodes))
        decreases |tokens| + 1 - pos
      {
        var node := ParseNode();
        if node.Err? {
          return Err(node.error);
        }
        if node.value.Some? {
          nodes := nodes + [node.value.value];
        } else {
          var _ := Next();
        }
      }
      r := Ok(nodes);
    }
  }
}
