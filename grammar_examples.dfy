/** How the parser groups and rejects small inputs, as written
    (parser/expressions.go, parser/parser.go). Tokens carry no position
    here, so every recorded position is NoPos. */
module GrammarExamples {
  import opened Wrappers
  import opened Strings
  import opened Tokens
  import opened Decimal
  import opened Ast
  import opened ParseErrors
  import opened Grammar

  function T(k: Kind, v: string): Token { Token(k, v, NoPos) }
  function Id(name: string): Expr { Ident(NoPos, name) }
  function Op(x: Expr, k: Kind, y: Expr): Expr { BinaryExpr(x, Kw(k, NoPos), y) }

  /** `a p b q c` with identifiers and operator kinds p and q. */
  function Chain(a: string, p: Kind, b: string, q: Kind, c: string): seq<Token> {
    [T(IDENT, a), T(p, ""), T(IDENT, b), T(q, ""), T(IDENT, c)]
  }

  /** An identifier not followed by whitespace is an operand ending right
      after it. */
  lemma Operand(toks: seq<Token>, i: nat)
    requires i < |toks| && toks[i].kind == IDENT
    requires i + 1 < |toks| ==> toks[i + 1].kind != WS
    ensures ParseUnary(toks, i) == Ok(Parsed(Ident(toks[i].pos, toks[i].val), i + 1))
  {
  }

  /** Two operators of the same level group to the left. */
  lemma {:induction false} SameLevelGroupsLeft(a: string, p: Kind, b: string, q: Kind, c: string)
    requires Level(T(p, "")) == Level(T(q, "")) > 0
    ensures ParseExpr(Chain(a, p, b, q, c), 0)
         == Ok(Parsed(Op(Op(Id(a), p, Id(b)), q, Id(c)), 5))
  {
    var toks := Chain(a, p, b, q, c);
    var level := Level(T(p, ""));
    Operand(toks, 0);
    Operand(toks, 2);
    Operand(toks, 4);
    assert BinaryLoop(toks, Id(c), 5, level + 1) == Ok(Parsed(Id(c), 5));
    assert BinaryLoop(toks, Id(b), 3, level + 1) == Ok(Parsed(Id(b), 3));
    var ab := Op(Id(a), p, Id(b));
    var abc := Op(ab, q, Id(c));
    assert BinaryLoop(toks, abc, 5, 1) == Ok(Parsed(abc, 5));
    assert BinaryLoop(toks, ab, 3, 1) == Ok(Parsed(abc, 5));
    assert BinaryLoop(toks, Id(a), 1, 1) == Ok(Parsed(abc, 5));
    assert ParseTernary(toks, 0, 1) == Ok(Parsed(abc, 5));
  }

  /** An operator of a higher level binds its operands first. */
  lemma {:induction false} HigherLevelGroupsRight(a: string, p: Kind, b: string, q: Kind, c: string)
    requires 0 < Level(T(p, "")) < Level(T(q, ""))
    ensures ParseExpr(Chain(a, p, b, q, c), 0)
         == Ok(Parsed(Op(Id(a), p, Op(Id(b), q, Id(c))), 5))
  {
    var toks := Chain(a, p, b, q, c);
    var lp := Level(T(p, ""));
    var lq := Level(T(q, ""));
    Operand(toks, 0);
    Operand(toks, 2);
    Operand(toks, 4);
    var bc := Op(Id(b), q, Id(c));
    var abc := Op(Id(a), p, bc);
    assert BinaryLoop(toks, Id(c), 5, lq + 1) == Ok(Parsed(Id(c), 5));
    assert BinaryLoop(toks, bc, 5, lp + 1) == Ok(Parsed(bc, 5));
    assert BinaryLoop(toks, Id(b), 3, lp + 1) == Ok(Parsed(bc, 5));
    assert BinaryLoop(toks, abc, 5, 1) == Ok(Parsed(abc, 5));
    assert BinaryLoop(toks, Id(a), 1, 1) == Ok(Parsed(abc, 5));
    assert ParseTernary(toks, 0, 1) == Ok(Parsed(abc, 5));
  }

  /** As written, `&&` sits in the comparison range, so getPrecedence
      gives it the level of `||`: `a || b && c` is `(a || b) && c`,
      while the keyword forms group `a or b and c` as `a or (b and c)`. */
  lemma SymbolicAndBindsLikeOr(a: string, b: string, c: string)
    ensures ParseExpr(Chain(a, LOR, b, LAND, c), 0)
         == Ok(Parsed(Op(Op(Id(a), LOR, Id(b)), LAND, Id(c)), 5))
    ensures ParseExpr(Chain(a, OR, b, AND, c), 0)
         == Ok(Parsed(Op(Id(a), OR, Op(Id(b), AND, Id(c))), 5))
  {
    SameLevelGroupsLeft(a, LOR, b, LAND, c);
    HigherLevelGroupsRight(a, OR, b, AND, c);
  }

  /** Comparisons chain to the left: `a == b < c` is `(a == b) < c`; and
      `!`, in the comparison range too, is taken as a binary operator. */
  lemma ComparisonsChainLeft(a: string, b: string, c: string)
    ensures ParseExpr(Chain(a, EQL, b, LESS, c), 0)
         == Ok(Parsed(Op(Op(Id(a), EQL, Id(b)), LESS, Id(c)), 5))
    ensures ParseExpr(Chain(a, EXCL, b, EQL, c), 0)
         == Ok(Parsed(Op(Op(Id(a), EXCL, Id(b)), EQL, Id(c)), 5))
  {
    SameLevelGroupsLeft(a, EQL, b, LESS, c);
    SameLevelGroupsLeft(a, EXCL, b, EQL, c);
  }

  /** `is` has no level, so the expression ends before it and the tag
      then misses its `}}`: `{{a is b}}` is an error. */
  lemma IsEndsTheExpression(a: string, b: string)
    ensures ParseExprNode([T(LEXPR, "{{"), T(IDENT, a), T(IS, "is"), T(IDENT, b), T(REXPR, "}}")], 0)
         == Err(ExpectedTokensError(NoPos, [REXPR]))
  {
    var toks := [T(LEXPR, "{{"), T(IDENT, a), T(IS, "is"), T(IDENT, b), T(REXPR, "}}")];
    Operand(toks, 1);
    assert BinaryLoop(toks, Id(a), 2, 1) == Ok(Parsed(Id(a), 2));
    assert ParseTernary(toks, 1, 1) == Ok(Parsed(Id(a), 2));
    assert ParseExpr(toks, 1) == Ok(Parsed(Id(a), 2));
  }

  /** Filters apply left to right: `a -> f -> g` is g(f(a)). */
  lemma FiltersFoldLeft(a: string, f: string, g: string)
    ensures ParseExpr([T(IDENT, a), T(RARR, "->"), T(IDENT, f), T(RARR, "->"), T(IDENT, g)], 0)
         == Ok(Parsed(FilterExpr(FilterExpr(Id(a), NoPos, NoPos, f), NoPos, NoPos, g), 5))
  {
    var toks := [T(IDENT, a), T(RARR, "->"), T(IDENT, f), T(RARR, "->"), T(IDENT, g)];
    Operand(toks, 0);
    assert BinaryLoop(toks, Id(a), 1, 1) == Ok(Parsed(Id(a), 1));
    assert ParseTernary(toks, 0, 1) == Ok(Parsed(Id(a), 1));
    assert SkipWs(toks, 2) == 2 && SkipWs(toks, 3) == 3 && SkipWs(toks, 4) == 4 && SkipWs(toks, 5) == 5;
    var af := FilterExpr(Id(a), NoPos, NoPos, f);
    var afg := FilterExpr(af, NoPos, NoPos, g);
    assert FilterLoop(toks, afg, 5) == Ok(Parsed(afg, 5));
    assert FilterLoop(toks, af, 3) == Ok(Parsed(afg, 5));
    assert FilterLoop(toks, Id(a), 1) == Ok(Parsed(afg, 5));
  }

  /** `a ? b : c` is a ternary. */
  lemma TernaryPairs(a: string, b: string, c: string)
    ensures ParseExpr(Chain(a, QUESTION, b, COLON, c), 0)
         == Ok(Parsed(TernaryExpr(Id(a), Kw(QUESTION, NoPos), Id(b), Kw(COLON, NoPos), Id(c)), 5))
  {
    var toks := Chain(a, QUESTION, b, COLON, c);
    Operand(toks, 0);
    Operand(toks, 2);
    Operand(toks, 4);
    assert SkipWs(toks, 2) == 2 && SkipWs(toks, 4) == 4;
    assert ParseBinary(toks, 0, 1) == Ok(Parsed(Id(a), 1));
    assert BinaryLoop(toks, Id(b), 3, 1) == Ok(Parsed(Id(b), 3));
    assert TernaryTail(toks, Id(b), 3) == Ok(Parsed(Id(b), 3));
    assert ParseTernary(toks, 2, 1) == Ok(Parsed(Id(b), 3));
    assert ParseExpr(toks, 2) == Ok(Parsed(Id(b), 3));
    assert BinaryLoop(toks, Id(c), 5, 1) == Ok(Parsed(Id(c), 5));
    assert ParseTernary(toks, 4, 1) == Ok(Parsed(Id(c), 5));
    assert ParseExpr(toks, 4) == Ok(Parsed(Id(c), 5));
    var t := TernaryExpr(Id(a), Kw(QUESTION, NoPos), Id(b), Kw(COLON, NoPos), Id(c));
    assert TernaryTail(toks, Id(a), 1) == Ok(Parsed(t, 5));
    assert ParseTernary(toks, 0, 1) == Ok(Parsed(t, 5));
  }

  /** `a ? b else c` wants `:` where `else` stands. */
  lemma TernaryMismatch(a: string, b: string, c: string)
    ensures ParseExpr(Chain(a, QUESTION, b, ELSE, c), 0)
         == Err(ExpectedTokensError(NoPos, [COLON]))
  {
    var bad := Chain(a, QUESTION, b, ELSE, c);
    Operand(bad, 0);
    Operand(bad, 2);
    assert SkipWs(bad, 2) == 2;
    assert ParseBinary(bad, 0, 1) == Ok(Parsed(Id(a), 1));
    assert BinaryLoop(bad, Id(b), 3, 1) == Ok(Parsed(Id(b), 3));
    assert TernaryTail(bad, Id(b), 3) == Ok(Parsed(Id(b), 3));
    assert ParseTernary(bad, 2, 1) == Ok(Parsed(Id(b), 3));
    assert ParseExpr(bad, 2) == Ok(Parsed(Id(b), 3));
    assert TernaryTail(bad, Id(a), 1) == Err(ExpectedTokensError(NoPos, [COLON]));
    assert ParseTernary(bad, 0, 1) == Err(ExpectedTokensError(NoPos, [COLON]));
  }

  /** An empty tag `{{}}` is "expression expected"; an unclosed `{{a`
      wants `}}`. */
  lemma TagErrors(a: string)
    ensures ParseExprNode([T(LEXPR, "{{"), T(REXPR, "}}")], 0) == Err(Error(NoPos, ExpressionExpected))
    ensures ParseExprNode([T(LEXPR, "{{"), T(IDENT, a)], 0) == Err(ExpectedTokensError(NoPos, [REXPR]))
  {
    var empty := [T(LEXPR, "{{"), T(REXPR, "}}")];
    assert SkipWs(empty, 1) == 1;
    assert ParseUnary(empty, 1) == Err(Error(NoPos, ExpressionExpected));
    assert ParseTernary(empty, 1, 1) == Err(Error(NoPos, ExpressionExpected));
    assert ParseExpr(empty, 1) == Err(Error(NoPos, ExpressionExpected));
    var toks := [T(LEXPR, "{{"), T(IDENT, a)];
    assert SkipWs(toks, 1) == 1;
    Operand(toks, 1);
    assert BinaryLoop(toks, Id(a), 2, 1) == Ok(Parsed(Id(a), 2));
    assert ParseTernary(toks, 1, 1) == Ok(Parsed(Id(a), 2));
    assert ParseExpr(toks, 1) == Ok(Parsed(Id(a), 2));
  }

  /** After `-`, a token that is neither a number nor a string is
      swallowed and the expression is nil. */
  lemma MinusBeforeIdentIsNil(a: string)
    ensures ParsePrimary([T(MINUS, "-"), T(IDENT, a)], 0) == Ok(Parsed(Nil, 2))
  {
  }

  /** A number token whose text ParseFloat rejects makes parsePrimary
      panic. The lexer only makes number tokens out of digits and at
      most one `.`, so on its tokens this branch is not reached; here the
      token is built by hand. */
  lemma BadNumberPanics(p: Position)
    ensures ParsePrimary([Token(INT, "x", p)], 0) == Err(Panic(p))
  {
    assert DotIndex("x") == 1;
    assert !AllDigits("x");
  }

  /** `-2.5` is the number -2.5. */
  lemma NegativeNumber()
    ensures ParsePrimary([T(MINUS, "-"), T(FLOAT, "2.5")], 0) == Ok(Parsed(NumberLit(NoPos, Number(-25, 1)), 2))
  {
    assert ParseDecimal("2.5") == Some(Number(25, 1)) by {
      assert DotIndex("2.5") == 1;
      assert "2.5"[..1] == "2" && "2.5"[2..] == "5";
      assert "2" + "5" == "25";
      assert DigitsValue("25") == 25 by {
        assert "25"[..1] == "2";
        assert "2"[..0] == "";
      }
    }
  }

  /** A statement other than `if` and `genif` is an unknown statement. */
  lemma UnknownKeyword(k: Kind)
    requires k != IF && k != GENIF
    ensures ParseStmt([T(LSTMT, "{%"), T(k, "")], 0, "") == Err(UnknownStatement)
  {
  }

  /** `{% if a %}x{% end %}`: the body is the text node and the closing
      tag ends the statement. */
  lemma IfStatement(a: string, x: string)
    ensures Parse([T(LSTMT, "{%"), T(IF, "if"), T(IDENT, a), T(RSTMT, "%}"), T(TEXT, x),
                   T(LSTMT, "{%"), T(END, "end"), T(RSTMT, "%}")])
         == Ok([IfNode(StmtTagWithExpr(StmtTag(""), Id(a)), [TextNode(NoPos, [x])], [],
                       ElseNode(StmtTag(""), []), StmtTag(""))])
  {
    var toks := [T(LSTMT, "{%"), T(IF, "if"), T(IDENT, a), T(RSTMT, "%}"), T(TEXT, x),
                 T(LSTMT, "{%"), T(END, "end"), T(RSTMT, "%}")];
    Operand(toks, 2);
    assert BinaryLoop(toks, Id(a), 3, 1) == Ok(Parsed(Id(a), 3));
    assert ParseTernary(toks, 2, 1) == Ok(Parsed(Id(a), 3));
    assert ParseExpr(toks, 2) == Ok(Parsed(Id(a), 3));
    assert TextEnd(toks, 4) == 5;
    assert Pieces(toks, 4, 5) == [x];
    assert ParseNode(toks, 4) == Ok(NodeStep(Some(TextNode(NoPos, [x])), 5));
    assert BodyEnds(toks, 5) && !BodyEnds(toks, 4);
    var text := TextNode(NoPos, [x]);
    assert ParseBody(toks, 5, [text]) == Ok(([text], 5));
    assert [] + [text] == [text];
    assert ParseBody(toks, 4, []) == Ok(([text], 5));
    assert ParseEndTag(toks, 5) == Ok(("", 8));
    assert SkipWs(toks, 1) == 1 && SkipWs(toks, 2) == 2 && SkipLineBreaks(toks, 4) == 4;
    var node := IfNode(StmtTagWithExpr(StmtTag(""), Id(a)), [text], [], ElseNode(StmtTag(""), []), StmtTag(""));
    assert ParseIf(toks, 1, "") == Ok(NodeStep(Some(node), 8));
    assert ParseNode(toks, 0) == Ok(NodeStep(Some(node), 8));
    assert ParseFrom(toks, 8, [node]) == Ok([node]);
    assert [] + [node] == [node];
    assert ParseFrom(toks, 0, []) == Ok([node]);
  }
}
