/** What renderer/renderer.go promises, stated over the Renderer model. */
module RenderProps {
  import opened Wrappers
  import opened Strings
  import opened Tokens
  import opened Decimal
  import opened Ast
  import opened Values
  import opened Filters
  import opened Renderer
  import Types

  // ---------------------------------------------------------------
  // The context
  // ---------------------------------------------------------------

  /** `true` and `false` are always the booleans, even over a scope entry
      of that name; every other entry is its lifted host value. */
  lemma ContextBindsBooleans(scope: map<string, Types.Dynamic>)
    requires InputToContext(scope).Some?
    ensures var ctx := InputToContext(scope).value;
      && ctx.Keys == scope.Keys + {"true", "false"}
      && ctx["true"] == Bool(true) && ctx["false"] == Bool(false)
      && forall k :: k in scope && k != "true" && k != "false" ==> ctx[k] == FromAny(scope[k]).value
  {
  }

  // ---------------------------------------------------------------
  // Expressions
  // ---------------------------------------------------------------

  /** An identifier fails exactly when it is not bound, with the
      "not declared" message. */
  lemma UnboundIdent(p: Position, name: string, ctx: Context, lib: Strcase)
    requires ContextOk(ctx)
    ensures Eval(Ident(p, name), ctx, lib).Err? <==> name !in ctx
    ensures name !in ctx ==> Eval(Ident(p, name), ctx, lib) == Err(Failed(name + " not declared"))
    ensures name in ctx ==> Eval(Ident(p, name), ctx, lib) == Ok(ctx[name])
  {
  }

  /** A ternary has the value of the branch its condition picks, whatever
      the other branch would do. */
  lemma TernaryEvaluatesOneBranch(c: Expr, doKw: Kw, t: Expr, elseKw: Kw, f: Expr, ctx: Context, lib: Strcase)
    requires ContextOk(ctx) && Eval(c, ctx, lib).Ok?
    ensures AsBoolean(Eval(c, ctx, lib).value) ==> Eval(TernaryExpr(c, doKw, t, elseKw, f), ctx, lib) == Eval(t, ctx, lib)
    ensures !AsBoolean(Eval(c, ctx, lib).value) ==> Eval(TernaryExpr(c, doKw, t, elseKw, f), ctx, lib) == Eval(f, ctx, lib)
  {
  }

  /** `true ? x : missing` is x's value although `missing` is unbound. */
  lemma UntakenBranchNotEvaluated(lib: Strcase)
    ensures var ctx := InputToContext(map["x" := Types.DString("hi")]).value;
      Eval(TernaryExpr(Ident(NoPos, "true"), Kw(QUESTION, NoPos), Ident(NoPos, "x"), Kw(COLON, NoPos), Ident(NoPos, "missing")), ctx, lib)
        == Ok(Str("hi"))
  {
    var ctx := InputToContext(map["x" := Types.DString("hi")]).value;
    assert "missing" !in ctx by {
      assert ctx.Keys == {"x", "true", "false"};
    }
  }

  /** `!` and `not` give the boolean negation of the operand's truth; any
      other unary operator is an error once the operand evaluates. */
  lemma NotNegatesTruth(op: Kw, x: Expr, ctx: Context, lib: Strcase)
    requires ContextOk(ctx) && Eval(x, ctx, lib).Ok?
    ensures op.kind == EXCL || op.kind == NOT ==>
              Eval(UnaryExpr(op, x), ctx, lib) == Ok(Bool(!AsBoolean(Eval(x, ctx, lib).value)))
    ensures op.kind != EXCL && op.kind != NOT ==>
              Eval(UnaryExpr(op, x), ctx, lib) == Err(Failed("unknown operator in unary expression"))
  {
  }

  /** The left operand's error wins over the right one's: the right is
      evaluated only once the left has a value. */
  lemma LeftErrorFirst(x: Expr, op: Kw, y: Expr, ctx: Context, lib: Strcase)
    requires ContextOk(ctx) && Eval(x, ctx, lib).Err?
    ensures Eval(BinaryExpr(x, op, y), ctx, lib) == Eval(x, ctx, lib)
  {
  }

  /** `&&`/`and` and `||`/`or` return one of their operand values, not a
      boolean; the truth of that value is the logical and/or of the
      operands' truth. */
  lemma LogicalOperatorsReturnOperands(k: Kind, x: Value, y: Value)
    requires WellFormed(x) && WellFormed(y)
    requires k == LAND || k == AND || k == LOR || k == OR
    ensures BinaryOp(k, x, y).Ok?
    ensures BinaryOp(k, x, y).value == x || BinaryOp(k, x, y).value == y
    ensures (k == LAND || k == AND) ==>
              (AsBoolean(BinaryOp(k, x, y).value) <==> AsBoolean(x) && AsBoolean(y))
    ensures (k == LOR || k == OR) ==>
              (AsBoolean(BinaryOp(k, x, y).value) <==> AsBoolean(x) || AsBoolean(y))
  {
  }

  /** `==` and `is` compare the printed text, and `!=` and `is not` are
      exactly its negation. */
  lemma EqualityIsText(x: Value, y: Value)
    requires WellFormed(x) && WellFormed(y)
    ensures BinaryOp(EQL, x, y) == BinaryOp(IS, x, y) == Ok(Bool(AsString(x) == AsString(y)))
    ensures BinaryOp(NEQL, x, y) == BinaryOp(ISNOT, x, y) == Ok(Bool(AsString(x) != AsString(y)))
  {
  }

  /** Every boolean prints as "", so any two booleans compare equal. */
  lemma BooleansCompareEqual(a: bool, b: bool)
    ensures BinaryOp(EQL, Bool(a), Bool(b)) == Ok(Bool(true))
    ensures BinaryOp(NEQL, Bool(a), Bool(b)) == Ok(Bool(false))
  {
  }

  /** In any context built from input, `true == false` is true. */
  lemma TrueEqualsFalse(scope: map<string, Types.Dynamic>, lib: Strcase)
    requires InputToContext(scope).Some?
    ensures Eval(BinaryExpr(Ident(NoPos, "true"), Kw(EQL, NoPos), Ident(NoPos, "false")),
                 InputToContext(scope).value, lib) == Ok(Bool(true))
  {
  }

  /** `<` compares the operands' numbers. */
  lemma LessComparesNumbers(x: Value, y: Value)
    requires WellFormed(x) && WellFormed(y)
    ensures BinaryOp(LESS, x, y) == Ok(Bool(Less(AsNumber(x), AsNumber(y))))
  {
  }

  /** `>` is `<` with the operands swapped. */
  lemma GreaterIsSwappedLess(x: Value, y: Value)
    requires WellFormed(x) && WellFormed(y)
    ensures BinaryOp(GTR, x, y) == BinaryOp(LESS, y, x)
  {
  }

  /** `>=` is `<=` with the operands swapped. */
  lemma GreaterOrEqualIsSwapped(x: Value, y: Value)
    requires WellFormed(x) && WellFormed(y)
    ensures BinaryOp(GEQ, x, y) == BinaryOp(LEQ, y, x)
  {
  }

  /** `<=` holds exactly when `<` holds or both sides are the same
      number. */
  lemma LessOrEqualIsLessOrSame(x: Value, y: Value)
    requires WellFormed(x) && WellFormed(y)
    ensures BinaryOp(LEQ, x, y)
         == Ok(Bool(Less(AsNumber(x), AsNumber(y)) || AsNumber(x) == AsNumber(y)))
  {
    var a, b := AsNumber(x), AsNumber(y);
    Trichotomy(a, b);
    assert BinaryOp(LEQ, x, y) == Ok(Bool(LessOrEqual(a, b)));
  }

  /** Exactly one of a < b, a == b, b < a holds for numbers in normal
      form, and a <= b is a < b or a == b. */
  lemma Trichotomy(a: Number, b: Number)
    requires Normal(a) && Normal(b)
    ensures LessOrEqual(a, b) <==> Less(a, b) || a == b
    ensures Less(a, b) || a == b || Less(b, a)
    ensures !(Less(a, b) && Less(b, a)) && !(Less(a, b) && a == b)
  {
    var p := a.mantissa * Pow10(b.scale);
    var q := b.mantissa * Pow10(a.scale);
    assert Less(a, b) <==> p < q;
    assert Less(b, a) <==> q < p;
    assert LessOrEqual(a, b) <==> p <= q;
    assert SameValue(a, b) <==> p == q;
    if p == q {
      NormalUnique(a, b);
    }
  }

  /** An operator outside the renderer's switch (ADD among them, whose
      case is commented out) fails after both operands evaluate. */
  lemma OtherOperatorsFail(k: Kind, x: Value, y: Value)
    requires WellFormed(x) && WellFormed(y)
    requires k !in {NEQL, ISNOT, EQL, IS, LAND, AND, LOR, OR, GTR, LESS, LEQ, GEQ}
    ensures BinaryOp(k, x, y) == Err(Failed("unknown operator in binary expression"))
  {
  }

  // ---------------------------------------------------------------
  // Node lists
  // ---------------------------------------------------------------

  /** Every node of the list renders without error and without stopping
      the list. */
  predicate Continues(nodes: seq<Node>, ctx: Context, lib: Strcase)
    requires ContextOk(ctx)
  {
    forall i :: 0 <= i < |nodes| ==> RenderNode(nodes[i], ctx, lib).Ok? && !RenderNode(nodes[i], ctx, lib).value.stop
  }

  /** A list that continues renders to its nodes' text in order, and
      whatever follows it renders after that text. */
  lemma {:induction false} RenderAppend(a: seq<Node>, b: seq<Node>, ctx: Context, lib: Strcase)
    requires ContextOk(ctx) && Continues(a, ctx, lib)
    ensures RenderNodes(a, ctx, lib).Ok?
    ensures RenderNodes(a + b, ctx, lib) == Prefixed(RenderNodes(a, ctx, lib).value, RenderNodes(b, ctx, lib))
    decreases |a|
  {
    if a == [] {
      assert a + b == b;
      PrefixedEmpty(RenderNodes(b, ctx, lib));
    } else {
      assert (a + b)[0] == a[0] && (a + b)[1..] == a[1..] + b;
      ContinuesTail(a, ctx, lib);
      RenderAppend(a[1..], b, ctx, lib);
      PrefixedAssoc(RenderNode(a[0], ctx, lib).value.out, RenderNodes(a[1..], ctx, lib).value, RenderNodes(b, ctx, lib));
    }
  }

  lemma ContinuesTail(a: seq<Node>, ctx: Context, lib: Strcase)
    requires ContextOk(ctx) && Continues(a, ctx, lib) && a != []
    ensures Continues(a[1..], ctx, lib)
    ensures RenderNode(a[0], ctx, lib).Ok? && !RenderNode(a[0], ctx, lib).value.stop
  {
    assert forall i :: 0 <= i < |a[1..]| ==> a[1..][i] == a[i + 1];
  }

  lemma PrefixedEmpty(r: Result<string, RenderError>)
    ensures Prefixed("", r) == r
  {
    if r.Ok? {
      assert "" + r.value == r.value;
    }
  }

  lemma PrefixedAssoc(p: string, q: string, r: Result<string, RenderError>)
    ensures Prefixed(p, Prefixed(q, r)) == Prefixed(p + q, r)
  {
    if r.Ok? {
      assert p + (q + r.value) == (p + q) + r.value;
    }
  }

  /** An error in any node of a list that got that far aborts the whole
      render: no text at all is produced. */
  lemma ErrorAborts(a: seq<Node>, n: Node, b: seq<Node>, ctx: Context, lib: Strcase)
    requires ContextOk(ctx) && Continues(a, ctx, lib) && RenderNode(n, ctx, lib).Err?
    ensures RenderNodes(a + [n] + b, ctx, lib) == Err(RenderNode(n, ctx, lib).error)
  {
    assert a + [n] + b == a + ([n] + b);
    RenderAppend(a, [n] + b, ctx, lib);
    assert ([n] + b)[0] == n;
  }

  /** Only an if node stops the list, and only through a truthy branch:
      text, expression and switch nodes never do. */
  lemma OnlyIfStops(n: Node, ctx: Context, lib: Strcase)
    requires ContextOk(ctx) && RenderNode(n, ctx, lib).Ok? && RenderNode(n, ctx, lib).value.stop
    ensures n.IfNode?
    ensures var c := Eval(n.ifTag.expr, ctx, lib);
      c.Ok? && (AsBoolean(c.value) || RenderElseIfs(n.elseIfs, ctx, lib).Ok?)
  {
  }

  /** An if whose condition is truthy renders its main body and ends the
      list it is in: the sibling nodes after it are never rendered, so
      their errors and text are both dropped. */
  lemma EarlyReturn(a: seq<Node>, n: Node, b: seq<Node>, ctx: Context, lib: Strcase)
    requires ContextOk(ctx) && Continues(a, ctx, lib)
    requires n.IfNode? && Eval(n.ifTag.expr, ctx, lib).Ok? && AsBoolean(Eval(n.ifTag.expr, ctx, lib).value)
    requires RenderNodes(n.mainBody, ctx, lib).Ok?
    ensures RenderNodes(a, ctx, lib).Ok? && RenderNodes(a + [n] + b, ctx, lib)
         == Ok(RenderNodes(a, ctx, lib).value + RenderNodes(n.mainBody, ctx, lib).value)
  {
    assert a + [n] + b == a + ([n] + b);
    RenderAppend(a, [n] + b, ctx, lib);
    assert ([n] + b)[0] == n;
  }

  /** Every piece of text, in order. */
  function AllPieces(nodes: seq<Node>): seq<string>
    requires forall i :: 0 <= i < |nodes| ==> nodes[i].TextNode?
  {
    if nodes == [] then [] else nodes[0].pieces + AllPieces(nodes[1..])
  }

  /** A list of text nodes renders to the concatenation of all their
      pieces. */
  lemma {:induction false} TextOnly(nodes: seq<Node>, ctx: Context, lib: Strcase)
    requires ContextOk(ctx) && forall i :: 0 <= i < |nodes| ==> nodes[i].TextNode?
    ensures RenderNodes(nodes, ctx, lib) == Ok(Concat(AllPieces(nodes)))
    decreases |nodes|
  {
    if nodes != [] {
      TextOnly(nodes[1..], ctx, lib);
      ConcatSplit(nodes[0].pieces, AllPieces(nodes[1..]));
    }
  }

  lemma {:induction false} ConcatSplit(p: seq<string>, q: seq<string>)
    ensures Concat(p + q) == Concat(p) + Concat(q)
    decreases |p|
  {
    if p == [] {
      assert p + q == q;
    } else {
      assert (p + q)[0] == p[0] && (p + q)[1..] == p[1..] + q;
      ConcatSplit(p[1..], q);
    }
  }

  // ---------------------------------------------------------------
  // Switch
  // ---------------------------------------------------------------

  /** The first case whose value is eql to the subject renders, and the
      cases after it are never evaluated. */
  lemma {:induction false} SwitchFirstMatch(cases: seq<CaseClause>, subject: Value, k: nat, ctx: Context, lib: Strcase)
    requires ContextOk(ctx) && WellFormed(subject) && k < |cases|
    requires forall j :: 0 <= j < k ==>
               Eval(cases[j].caseTag.expr, ctx, lib).Ok? && !Eql(subject, Eval(cases[j].caseTag.expr, ctx, lib).value)
    requires Eval(cases[k].caseTag.expr, ctx, lib).Ok? && Eql(subject, Eval(cases[k].caseTag.expr, ctx, lib).value)
    ensures RenderCases(cases, subject, ctx, lib)
         == match RenderNodes(cases[k].body, ctx, lib)
            case Err(err) => Err(err)
            case Ok(s) => Ok(Some(s))
    decreases k
  {
    if k > 0 {
      var v := Eval(cases[0].caseTag.expr, ctx, lib);
      assert v.Ok? && !Eql(subject, v.value);
      assert RenderCases(cases, subject, ctx, lib) == RenderCases(cases[1..], subject, ctx, lib);
      assert forall j :: 0 <= j < k - 1 ==> cases[1..][j] == cases[j + 1];
      SwitchFirstMatch(cases[1..], subject, k - 1, ctx, lib);
    }
  }

  /** When no case is eql to the subject, the default renders. */
  lemma {:induction false} SwitchNoMatch(cases: seq<CaseClause>, subject: Value, ctx: Context, lib: Strcase)
    requires ContextOk(ctx) && WellFormed(subject)
    requires forall j :: 0 <= j < |cases| ==>
               Eval(cases[j].caseTag.expr, ctx, lib).Ok? && !Eql(subject, Eval(cases[j].caseTag.expr, ctx, lib).value)
    ensures RenderCases(cases, subject, ctx, lib) == Ok(None)
    decreases |cases|
  {
    if cases != [] {
      assert forall j :: 0 <= j < |cases| - 1 ==> cases[1..][j] == cases[j + 1];
      SwitchNoMatch(cases[1..], subject, ctx, lib);
    }
  }

  /** A switch renders at most one body and never ends the list, so the
      nodes after it still render. */
  lemma SwitchContinues(a: seq<Node>, n: Node, b: seq<Node>, ctx: Context, lib: Strcase)
    requires ContextOk(ctx) && n.SwitchNode? && RenderNode(n, ctx, lib).Ok?
    requires Continues(a, ctx, lib)
    ensures RenderNodes(a, ctx, lib).Ok? && RenderNodes(a + [n] + b, ctx, lib)
         == Prefixed(RenderNodes(a, ctx, lib).value + RenderNode(n, ctx, lib).value.out, RenderNodes(b, ctx, lib))
  {
    assert Continues(a + [n], ctx, lib) by {
      forall i | 0 <= i < |a + [n]|
        ensures RenderNode((a + [n])[i], ctx, lib).Ok? && !RenderNode((a + [n])[i], ctx, lib).value.stop
      {
        if i < |a| {
          assert (a + [n])[i] == a[i];
        }
      }
    }
    RenderAppend(a + [n], b, ctx, lib);
    RenderAppend(a, [n], ctx, lib);
    assert [n][0] == n && [n][1..] == [];
    assert RenderNodes([n], ctx, lib) == Ok(RenderNode(n, ctx, lib).value.out + "");
    assert RenderNode(n, ctx, lib).value.out + "" == RenderNode(n, ctx, lib).value.out;
  }
}
