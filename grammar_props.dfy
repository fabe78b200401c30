/** What the expression and statement grammar guarantees about every
    tree it builds and every place it stops, and how it groups the
    operators as written (parser/expressions.go, parser/parser.go). */
module GrammarProps {
  import opened Wrappers
  import opened Tokens
  import opened Decimal
  import opened Ast
  import opened ParseErrors
  import opened Grammar
  import opened Strings
  import LexSpec

  /** The kinds getPrecedence gives a non-zero level: the comparison
      range (which holds `&&`, `||` and `!` too), `or` and `and`. */
  predicate BinaryOperator(k: Kind) {
    (ComparisonOpBeg < k < ComparisonOpEnd) || k == LOR || k == OR || k == AND || k == LAND
  }

  /** The shape of every tree the parser builds: unary operators are
      `not`/`!`, binary operators are ones getPrecedence ranks (so never
      `is`, `is not`, `+` or `-`), a ternary pairs `?` with `:` and `do`
      with `else`, and number literals are in normal form. */
  predicate Produced(e: Expr) {
    match e
    case NumberLit(_, n) => Normal(n)
    case StringLit(_, _, _) => true
    case Ident(_, _) => true
    case UnaryExpr(op, x) => (op.kind == NOT || op.kind == EXCL) && Produced(x)
    case BinaryExpr(x, op, y) => BinaryOperator(op.kind) && Produced(x) && Produced(y)
    case TernaryExpr(c, d, t, el, f) =>
      ((d.kind == QUESTION && el.kind == COLON) || (d.kind == DO && el.kind == ELSE))
      && Produced(c) && Produced(t) && Produced(f)
    case ParenExpr(x, _, _) => Produced(x)
    case FilterExpr(x, _, _, _) => Produced(x)
    case Nil => true
  }

  /** A successful result holds a produced tree and leaves the cursor on a
      token that is not whitespace. */
  predicate Good(toks: seq<Token>, r: ExprResult) {
    r.Ok? ==> Produced(r.value.e) && Cur(toks, r.value.next).kind != WS
  }

  /** A result that also stopped at a token binding less than min. */
  predicate StopsBelow(toks: seq<Token>, r: ExprResult, min: int) {
    r.Ok? ==> Level(Cur(toks, r.value.next)) < min
  }

  lemma {:induction false} ExprGood(toks: seq<Token>, i: nat)
    requires i <= |toks| + 1
    ensures Good(toks, ParseExpr(toks, i))
    ensures ParseExpr(toks, i).Ok? ==> Cur(toks, ParseExpr(toks, i).value.next).kind != RARR
    decreases |toks| + 1 - i, 7
  {
    FilterGood(toks, i);
  }

  lemma {:induction false} FilterGood(toks: seq<Token>, i: nat)
    requires i <= |toks| + 1
    ensures Good(toks, ParseFilter(toks, i))
    ensures ParseFilter(toks, i).Ok? ==> Cur(toks, ParseFilter(toks, i).value.next).kind != RARR
    decreases |toks| + 1 - i, 6
  {
    TernaryGood(toks, i, 1);
    match ParseTernary(toks, i, 1)
    case Err(_) =>
    case Ok(p) => FilterLoopGood(toks, p.e, p.next);
  }

  lemma {:induction false} FilterLoopGood(toks: seq<Token>, e: Expr, j: nat)
    requires j <= |toks| + 1 && Produced(e) && Cur(toks, j).kind != WS
    ensures Good(toks, FilterLoop(toks, e, j))
    ensures FilterLoop(toks, e, j).Ok? ==> Cur(toks, FilterLoop(toks, e, j).value.next).kind != RARR
    decreases |toks| + 1 - j, 0
  {
    var t := Cur(toks, j);
    if t.kind == RARR {
      var k := SkipWs(toks, j + 1);
      var u := Cur(toks, k);
      if u.kind == IDENT {
        FilterLoopGood(toks, FilterExpr(e, t.pos, u.pos, u.val), SkipWs(toks, k + 1));
      }
    }
  }

  lemma {:induction false} TernaryGood(toks: seq<Token>, i: nat, min: int)
    requires i <= |toks| + 1 && min >= 1
    ensures Good(toks, ParseTernary(toks, i, min))
    decreases |toks| + 1 - i, 5
  {
    BinaryGood(toks, i, min);
    match ParseBinary(toks, i, min)
    case Err(_) =>
    case Ok(c) => TailGood(toks, c.e, c.next);
  }

  lemma {:induction false} TailGood(toks: seq<Token>, c: Expr, j: nat)
    requires j <= |toks| + 1
    requires Produced(c) && Cur(toks, j).kind != WS
    ensures Good(toks, TernaryTail(toks, c, j))
    decreases |toks| + 1 - j, 0
  {
    var d := Cur(toks, j);
    if d.kind == QUESTION || d.kind == DO {
      ExprGood(toks, SkipWs(toks, j + 1));
      match ParseExpr(toks, SkipWs(toks, j + 1))
      case Err(_) =>
      case Ok(t) =>
        if Cur(toks, t.next).kind == (if d.kind == QUESTION then COLON else ELSE) {
          ExprGood(toks, SkipWs(toks, t.next + 1));
        }
    }
  }

  lemma {:induction false} BinaryGood(toks: seq<Token>, i: nat, min: int)
    requires i <= |toks| + 1 && min >= 1
    ensures Good(toks, ParseBinary(toks, i, min))
    ensures StopsBelow(toks, ParseBinary(toks, i, min), min)
    decreases |toks| + 1 - i, 4
  {
    UnaryGood(toks, i);
    match ParseUnary(toks, i)
    case Err(_) =>
    case Ok(p) => BinaryLoopGood(toks, p.e, p.next, min);
  }

  lemma {:induction false} BinaryLoopGood(toks: seq<Token>, left: Expr, j: nat, min: int)
    requires j <= |toks| + 1 && min >= 1
    requires Produced(left) && Cur(toks, j).kind != WS
    ensures Good(toks, BinaryLoop(toks, left, j, min))
    ensures StopsBelow(toks, BinaryLoop(toks, left, j, min), min)
    decreases |toks| + 1 - j, 0
  {
    var t := Cur(toks, j);
    var level := Level(t);
    if level >= min {
      var k := SkipWs(toks, j + 1);
      BinaryGood(toks, k, level + 1);
      match ParseBinary(toks, k, level + 1)
      case Err(_) =>
      case Ok(y) =>
        assert t.kind != IS;
        BinaryLoopGood(toks, BinaryExpr(left, Kw(t.kind, t.pos), y.e), y.next, min);
    }
  }

  lemma {:induction false} UnaryGood(toks: seq<Token>, i: nat)
    requires i <= |toks| + 1
    ensures Good(toks, ParseUnary(toks, i))
    decreases |toks| + 1 - i, 3
  {
    var t := Cur(toks, i);
    if t.kind == NOT || t.kind == EXCL {
      UnaryGood(toks, SkipWs(toks, i + 1));
    } else {
      PrimaryGood(toks, i);
    }
  }

  lemma {:induction false} PrimaryGood(toks: seq<Token>, i: nat)
    requires i <= |toks| + 1
    ensures Good(toks, ParsePrimary(toks, i))
    decreases |toks| + 1 - i, 2
  {
    if Cur(toks, i).kind == LPAREN {
      ExprGood(toks, i + 1);
    }
  }

  // ---------------------------------------------------------------
  // Nodes
  // ---------------------------------------------------------------

  /** The nodes the parser builds: text, an expression tag, a `genif`
      tag, or an `if` with no else-if or else branch whose body holds
      such nodes. Comments and `switch` are never produced. */
  predicate ParsedNode(n: Node)
    decreases n
  {
    match n
    case TextNode(_, _) => true
    case ExprNode(e) => Produced(e)
    case StmtNode(tag, e) => tag.kw.kind == GENIF && Produced(e)
    case IfNode(ifTag, body, elseIfs, elseBody, _) =>
      Produced(ifTag.expr) && elseIfs == [] && elseBody == ElseNode(StmtTag(""), [])
      && forall k :: 0 <= k < |body| ==> ParsedNode(body[k])
    case CommNode(_, _, _, _) => false
    case SwitchNode(_, _, _, _) => false
  }

  predicate AllParsed(nodes: seq<Node>) {
    forall k :: 0 <= k < |nodes| ==> ParsedNode(nodes[k])
  }

  predicate GoodNode(r: NodeResult) {
    r.Ok? && r.value.node.Some? ==> ParsedNode(r.value.node.value)
  }

  lemma {:induction false} NodeGood(toks: seq<Token>, i: nat)
    requires i <= |toks| + 1
    ensures GoodNode(ParseNode(toks, i))
    decreases |toks| + 1 - i, 2
  {
    var t := Cur(toks, i);
    if t.kind == WS && WsBeforeStmt(toks, i) && !EndTagAhead(toks, i) {
      StmtGood(toks, i + 1, t.val);
    } else if t.kind == LEXPR {
      ExprGood(toks, SkipWs(toks, i + 1));
    } else if t.kind == LSTMT {
      StmtGood(toks, i, "");
    }
  }

  lemma {:induction false} StmtGood(toks: seq<Token>, i: nat, preWs: string)
    requires i <= |toks| + 1
    ensures GoodNode(ParseStmt(toks, i, preWs))
    decreases |toks| + 1 - i, 1
  {
    if Cur(toks, i).kind == LSTMT {
      var k := SkipWs(toks, i + 1);
      if Cur(toks, k).kind == IF {
        IfGood(toks, k, preWs);
      } else if Cur(toks, k).kind == GENIF {
        ExprGood(toks, SkipWs(toks, k + 1));
      }
    }
  }

  lemma {:induction false} IfGood(toks: seq<Token>, i: nat, preWs: string)
    requires i < |toks|
    ensures GoodNode(ParseIf(toks, i, preWs))
    decreases |toks| + 1 - i, 0
  {
    var k := SkipWs(toks, i + 1);
    ExprGood(toks, k);
    var c := ParseExpr(toks, k);
    if c.Ok? && Cur(toks, c.value.next).kind == RSTMT {
      BodyGood(toks, SkipLineBreaks(toks, c.value.next + 1), []);
    }
  }

  lemma {:induction false} BodyGood(toks: seq<Token>, i: nat, body: seq<Node>)
    requires i <= |toks| + 1 && AllParsed(body)
    ensures ParseBody(toks, i, body).Ok? ==> AllParsed(ParseBody(toks, i, body).value.0)
    decreases |toks| + 1 - i, 3
  {
    if !BodyEnds(toks, i) {
      NodeGood(toks, i);
      match ParseNode(toks, i)
      case Err(_) =>
      case Ok(s) =>
        if s.node.Some? {
          BodyGood(toks, s.next, body + [s.node.value]);
        }
    }
  }

  /** Every template that parses is a list of such nodes, and the list
      only grows: the nodes collected before are its prefix. */
  lemma {:induction false} ParseFromGood(toks: seq<Token>, i: nat, nodes: seq<Node>)
    requires i <= |toks| + 1 && AllParsed(nodes)
    ensures ParseFrom(toks, i, nodes).Ok? ==>
              AllParsed(ParseFrom(toks, i, nodes).value) && nodes <= ParseFrom(toks, i, nodes).value
    decreases |toks| + 1 - i
  {
    if i < |toks| {
      NodeGood(toks, i);
      match ParseNode(toks, i)
      case Err(_) =>
      case Ok(s) =>
        if s.node.None? {
          ParseFromGood(toks, i + 1, nodes);
        } else {
          ParseFromGood(toks, s.next, nodes + [s.node.value]);
        }
    }
  }

  lemma ParseGood(toks: seq<Token>)
    ensures Parse(toks).Ok? ==> AllParsed(Parse(toks).value)
  {
    ParseFromGood(toks, 0, []);
  }

  /** A body ends either one token before `end` or at the whitespace that
      precedes `{% end`; the closing tag is what comes next. */
  lemma {:induction false} BodyStopsAtEnd(toks: seq<Token>, i: nat, body: seq<Node>)
    requires i <= |toks| + 1
    ensures ParseBody(toks, i, body).Ok? ==>
              var j := ParseBody(toks, i, body).value.1;
              BodyEnds(toks, j) || (WsBeforeStmt(toks, j) && EndTagAhead(toks, j))
    decreases |toks| + 1 - i
  {
    if !BodyEnds(toks, i) {
      match ParseNode(toks, i)
      case Err(_) =>
      case Ok(s) =>
        if s.node.Some? {
          BodyStopsAtEnd(toks, s.next, body + [s.node.value]);
        } else {
          NoNodeOnlyBeforeEnd(toks, i);
        }
    }
  }

  /** parseNode yields no node exactly for the whitespace before `{% end`
      (or `{% <ws> end`). */
  lemma NoNodeOnlyBeforeEnd(toks: seq<Token>, i: nat)
    requires i <= |toks| + 1
    ensures (ParseNode(toks, i).Ok? && ParseNode(toks, i).value.node.None?)
            <==> (WsBeforeStmt(toks, i) && EndTagAhead(toks, i))
  {
    if WsBeforeStmt(toks, i) && !EndTagAhead(toks, i) {
      assert Cur(toks, i).kind == WS;
    }
  }

  /** The whitespace before a statement tag becomes the `if` tag's PreWs;
      a `genif` tag drops it. */
  lemma StmtKeepsPreWs(toks: seq<Token>, i: nat)
    requires WsBeforeStmt(toks, i) && !EndTagAhead(toks, i)
    requires ParseNode(toks, i).Ok?
    ensures var n := ParseNode(toks, i).value.node.value;
            (n.IfNode? && n.ifTag.tag.preWs == toks[i].val)
            || (n.StmtNode? && n.tagKw.tag.preWs == "")
  {
    var k := SkipWs(toks, i + 2);
    assert ParseNode(toks, i) == ParseStmt(toks, i + 1, toks[i].val);
    if Cur(toks, k).kind == IF {
      assert ParseNode(toks, i) == ParseIf(toks, k, toks[i].val);
    } else {
      assert ParseNode(toks, i) == ParseGenIf(toks, k);
    }
  }

  /** consumeWhitespaces returns exactly the text of the tokens it skips. */
  lemma {:induction false} WsTextSpells(toks: seq<Token>, i: nat)
    requires SkipWs(toks, i) <= |toks|
    ensures WsText(toks, i) == Concat(LexSpec.Vals(toks[i..SkipWs(toks, i)]))
    decreases |toks| - i
  {
    if i < |toks| && toks[i].kind == WS {
      WsTextSpells(toks, i + 1);
      assert toks[i..SkipWs(toks, i)] == [toks[i]] + toks[i + 1..SkipWs(toks, i + 1)];
    }
  }

  /** consumeLineBreak returns exactly the text of the tokens it skips. */
  lemma {:induction false} LineBreakTextSpells(toks: seq<Token>, i: nat)
    requires SkipLineBreaks(toks, i) <= |toks|
    ensures LineBreakText(toks, i) == Concat(LexSpec.Vals(toks[i..SkipLineBreaks(toks, i)]))
    decreases |toks| - i
  {
    if i < |toks| && toks[i].kind == LNBR {
      LineBreakTextSpells(toks, i + 1);
      assert toks[i..SkipLineBreaks(toks, i)] == [toks[i]] + toks[i + 1..SkipLineBreaks(toks, i + 1)];
    }
  }
}
