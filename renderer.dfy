/** The tree-walking evaluator (renderer/renderer.go): the context built
    from the caller's input, expression evaluation, and rendering a node
    list into text. */
module Renderer {
  import opened Wrappers
  import opened Strings
  import opened Tokens
  import opened Decimal
  import opened Ast
  import opened Values
  import opened Filters
  import Types

  /** Variables and their values. */
  type Context = map<string, Value>

  predicate ContextOk(ctx: Context) {
    forall k :: k in ctx ==> WellFormed(ctx[k])
  }

  /** InputToContext: every scope entry lifted by FromAny, then `true`
      and `false` bound to the booleans over any entry of that name.
      None when FromAny panics on some entry. */
  function InputToContext(scope: map<string, Types.Dynamic>): (r: Option<Context>)
    ensures r.Some? <==> forall k :: k in scope ==> FromAny(scope[k]).Some?
    ensures r.Some? ==> ContextOk(r.value)
  {
    if forall k :: k in scope ==> FromAny(scope[k]).Some? then
      Some((map k | k in scope :: FromAny(scope[k]).value)["true" := Bool(true)]["false" := Bool(false)])
    else None
  }

  /** InputToContext as the source computes it: a loop over the entries
      filling a fresh map. */
  method BuildContext(scope: map<string, Types.Dynamic>) returns (r: Option<Context>)
    ensures r == InputToContext(scope)
  {
    var ctx: Context := map[];
    var rest := scope.Keys;
    while rest != {}
      invariant rest <= scope.Keys
      invariant ctx.Keys == scope.Keys - rest
      invariant forall k :: k in ctx ==> FromAny(scope[k]).Some? && ctx[k] == FromAny(scope[k]).value
      decreases rest
    {
      var k :| k in rest;
      var v := FromAny(scope[k]);
      if v.None? {
        return None;
      }
      ctx := ctx[k := v.value];
      rest := rest - {k};
    }
    assert ctx == map k | k in scope :: FromAny(scope[k]).value;
    ctx := ctx["true" := Bool(true)];
    ctx := ctx["false" := Bool(false)];
    r := Some(ctx);
  }

  /** eql: equal printed text. */
  predicate Eql(x: Value, y: Value): (b: bool)
    requires WellFormed(x) && WellFormed(y)
    ensures x.Bool? && y.Bool? ==> b
    ensures x.Str? && y.Str? ==> (b <==> x.s == y.s)
    ensures x.Bool? && y.Str? ==> (b <==> y.s == "")
  {
    AsString(x) == AsString(y)
  }

  /** exprToValue. Operands are evaluated left to right and the first
      error is returned; a ternary evaluates its condition and then only
      the chosen branch; `&&`/`and` and `||`/`or` return one of their
      operands; the comparisons compare AsNumber; an operator the switch
      does not list is an error. A number literal's value is its number
      in normal form. */
  function Eval(e: Expr, ctx: Context, lib: Strcase): (r: Result<Value, RenderError>)
    requires ContextOk(ctx)
    ensures r.Ok? ==> WellFormed(r.value)
    decreases e
  {
    match e
    case Ident(_, name) =>
      if name in ctx then Ok(ctx[name]) else Err(Failed(name + " not declared"))
    case TernaryExpr(c, _, t, _, f) =>
      (match Eval(c, ctx, lib)
       case Err(err) => Err(err)
       case Ok(cv) => if AsBoolean(cv) then Eval(t, ctx, lib) else Eval(f, ctx, lib))
    case UnaryExpr(op, x) =>
      (match Eval(x, ctx, lib)
       case Err(err) => Err(err)
       case Ok(v) =>
         if op.kind == EXCL || op.kind == NOT then Ok(Bool(!AsBoolean(v)))
         else Err(Failed("unknown operator in unary expression")))
    case NumberLit(_, n) => Ok(Num(Normalize(n.mantissa, n.scale)))
    case StringLit(_, _, s) => Ok(Str(s))
    case FilterExpr(x, _, _, name) =>
      (match Eval(x, ctx, lib)
       case Err(err) => Err(err)
       case Ok(v) => CallFilter(name, v, lib))
    case ParenExpr(x, _, _) => Eval(x, ctx, lib)
    case BinaryExpr(x, op, y) =>
      (match Eval(x, ctx, lib)
       case Err(err) => Err(err)
       case Ok(xv) =>
         match Eval(y, ctx, lib)
         case Err(err) => Err(err)
         case Ok(yv) => BinaryOp(op.kind, xv, yv))
    case Nil => Err(Failed("unsupported condition type: <nil>"))
  }

  /** The operator switch of a binary expression on its two values. */
  function BinaryOp(k: Kind, x: Value, y: Value): (r: Result<Value, RenderError>)
    requires WellFormed(x) && WellFormed(y)
    ensures r.Ok? ==> WellFormed(r.value)
  {
    if k == NEQL || k == ISNOT then Ok(Bool(AsString(x) != AsString(y)))
    else if k == EQL || k == IS then Ok(Bool(Eql(x, y)))
    else if k == LAND || k == AND then Ok(if !AsBoolean(x) then x else y)
    else if k == LOR || k == OR then Ok(if AsBoolean(x) then x else y)
    else if k == GTR then Ok(Bool(Less(AsNumber(y), AsNumber(x))))
    else if k == LESS then Ok(Bool(Less(AsNumber(x), AsNumber(y))))
    else if k == LEQ then Ok(Bool(LessOrEqual(AsNumber(x), AsNumber(y))))
    else if k == GEQ then Ok(Bool(LessOrEqual(AsNumber(y), AsNumber(x))))
    else Err(Failed("unknown operator in binary expression"))
  }

  // ---------------------------------------------------------------
  // Rendering
  // ---------------------------------------------------------------

  /** What one node contributes to its list: its text, and whether the
      list stops after it (a truthy if or else-if returns from render). */
  datatype Step = Step(out: string, stop: bool)

  /** render: the nodes' text in order; the first error discards
      everything; a node that stops the list ends it. */
  function RenderNodes(nodes: seq<Node>, ctx: Context, lib: Strcase): (r: Result<string, RenderError>)
    requires ContextOk(ctx)
    ensures nodes == [] ==> r == Ok("")
    ensures nodes != [] && RenderNode(nodes[0], ctx, lib).Err? ==> r == Err(RenderNode(nodes[0], ctx, lib).error)
    ensures nodes != [] && RenderNode(nodes[0], ctx, lib).Ok? && RenderNode(nodes[0], ctx, lib).value.stop
            ==> r == Ok(RenderNode(nodes[0], ctx, lib).value.out)
    decreases nodes, 1
  {
    if nodes == [] then Ok("")
    else
      match RenderNode(nodes[0], ctx, lib)
      case Err(err) => Err(err)
      case Ok(st) =>
        if st.stop then Ok(st.out)
        else
          match RenderNodes(nodes[1..], ctx, lib)
          case Err(err) => Err(err)
          case Ok(rest) => Ok(st.out + rest)
  }

  /** One node of render's switch. */
  function RenderNode(n: Node, ctx: Context, lib: Strcase): (r: Result<Step, RenderError>)
    requires ContextOk(ctx)
    ensures r.Ok? && r.value.stop ==> n.IfNode?
    ensures n.TextNode? ==> r == Ok(Step(Concat(n.pieces), false))
    ensures n.CommNode? || n.StmtNode? ==> r.Err?
    decreases n, 0
  {
    match n
    case TextNode(_, pieces) => Ok(Step(Concat(pieces), false))
    case ExprNode(body) =>
      (match Eval(body, ctx, lib)
       case Err(err) => Err(err)
       case Ok(v) => Ok(Step(AsString(v), false)))
    case IfNode(ifTag, mainBody, elseIfs, elseBody, _) =>
      (match Eval(ifTag.expr, ctx, lib)
       case Err(err) => Err(err)
       case Ok(cv) =>
         if AsBoolean(cv) then
           match RenderNodes(mainBody, ctx, lib)
           case Err(err) => Err(err)
           case Ok(s) => Ok(Step(s, true))
         else
           match RenderElseIfs(elseIfs, ctx, lib)
           case Err(err) => Err(err)
           case Ok(Some(s)) => Ok(Step(s, true))
           case Ok(None) =>
             match RenderNodes(elseBody.body, ctx, lib)
             case Err(err) => Err(err)
             case Ok(s) => Ok(Step(s, false)))
    case SwitchNode(switchTag, cases, defaultCase, _) =>
      (match Eval(switchTag.expr, ctx, lib)
       case Err(err) => Err(err)
       case Ok(sv) =>
         match RenderCases(cases, sv, ctx, lib)
         case Err(err) => Err(err)
         case Ok(Some(s)) => Ok(Step(s, false))
         case Ok(None) =>
           match RenderNodes(defaultCase, ctx, lib)
           case Err(err) => Err(err)
           case Ok(s) => Ok(Step(s, false)))
    case CommNode(_, _, _, _) => Err(Failed("unexpected node type in ast: *parser.CommNode"))
    case StmtNode(_, _) => Err(Failed("unexpected node type in ast: *parser.StmtNode"))
  }

  /** The else-if loop: the body of the first truthy clause, or None. */
  function RenderElseIfs(elseIfs: seq<ElseIfNode>, ctx: Context, lib: Strcase): (r: Result<Option<string>, RenderError>)
    requires ContextOk(ctx)
    ensures r == Ok(None) ==> forall i :: 0 <= i < |elseIfs| ==>
              Eval(elseIfs[i].elseIfTag.expr, ctx, lib).Ok? && !AsBoolean(Eval(elseIfs[i].elseIfTag.expr, ctx, lib).value)
    decreases elseIfs
  {
    if elseIfs == [] then Ok(None)
    else
      match Eval(elseIfs[0].elseIfTag.expr, ctx, lib)
      case Err(err) => Err(err)
      case Ok(cv) =>
        if AsBoolean(cv) then
          match RenderNodes(elseIfs[0].body, ctx, lib)
          case Err(err) => Err(err)
          case Ok(s) => Ok(Some(s))
        else RenderElseIfs(elseIfs[1..], ctx, lib)
  }

  /** The case loop: the body of the first case eql to the subject, or
      None; cases after the match are not evaluated. */
  function RenderCases(cases: seq<CaseClause>, subject: Value, ctx: Context, lib: Strcase): (r: Result<Option<string>, RenderError>)
    requires ContextOk(ctx) && WellFormed(subject)
    ensures r == Ok(None) ==> forall i :: 0 <= i < |cases| ==>
              Eval(cases[i].caseTag.expr, ctx, lib).Ok? && !Eql(subject, Eval(cases[i].caseTag.expr, ctx, lib).value)
    decreases cases
  {
    if cases == [] then Ok(None)
    else
      match Eval(cases[0].caseTag.expr, ctx, lib)
      case Err(err) => Err(err)
      case Ok(v) =>
        if Eql(subject, v) then
          match RenderNodes(cases[0].body, ctx, lib)
          case Err(err) => Err(err)
          case Ok(s) => Ok(Some(s))
        else RenderCases(cases[1..], subject, ctx, lib)
  }

  // ---------------------------------------------------------------
  // render as the source computes it: a loop over the nodes writing
  // into a buffer, returning early on an error or a truthy branch
  // ---------------------------------------------------------------

  /** The buffer's text in front of what the rest of the list renders. */
  function Prefixed(prefix: string, r: Result<string, RenderError>): Result<string, RenderError> {
    match r
    case Err(err) => Err(err)
    case Ok(s) => Ok(prefix + s)
  }

  method Render(nodes: seq<Node>, ctx: Context, lib: Strcase) returns (r: Result<string, RenderError>)
    requires ContextOk(ctx)
    ensures r == RenderNodes(nodes, ctx, lib)
    decreases nodes, 2
  {
    var buf := "";
    var i := 0;
    assert nodes[i..] == nodes;
    match RenderNodes(nodes, ctx, lib) {
      case Ok(s) => assert "" + s == s;
      case Err(_) =>
    }
    while i < |nodes|
      invariant 0 <= i <= |nodes|
      invariant RenderNodes(nodes, ctx, lib) == Prefixed(buf, RenderNodes(nodes[i..], ctx, lib))
    {
      assert nodes[i..][0] == nodes[i] && nodes[i..][1..] == nodes[i + 1..];
      var st := RenderStep(nodes[i], ctx, lib);
      if st.Err? {
        return Err(st.error);
      }
      ghost var before := buf;
      buf := buf + st.value.out;
      if st.value.stop {
        return Ok(buf);
      }
      match RenderNodes(nodes[i + 1..], ctx, lib) {
        case Ok(rest) => assert before + (st.value.out + rest) == buf + rest;
        case Err(_) =>
      }
      i := i + 1;
    }
    assert nodes[i..] == [] && buf + "" == buf;
    r := Ok(buf);
  }

  /** One pass of render's type switch. */
  method RenderStep(n: Node, ctx: Context, lib: Strcase) returns (r: Result<Step, RenderError>)
    requires ContextOk(ctx)
    ensures r == RenderNode(n, ctx, lib)
    decreases n, 1
  {
    match n {
      case TextNode(_, pieces) =>
        var buf := "";
        for j := 0 to |pieces|
          invariant buf == Concat(pieces[..j])
        {
          ConcatAppend(pieces[..j], pieces[j]);
          assert pieces[..j + 1] == pieces[..j] + [pieces[j]];
          buf := buf + pieces[j];
        }
        assert pieces[..|pieces|] == pieces;
        r := Ok(Step(buf, false));
      case ExprNode(body) =>
        var v := Eval(body, ctx, lib);
        if v.Err? {
          return Err(v.error);
        }
        r := Ok(Step(AsString(v.value), false));
      case IfNode(_, _, _, _, _) =>
        r := RenderIf(n, ctx, lib);
      case SwitchNode(_, _, _, _) =>
        r := RenderSwitch(n, ctx, lib);
      case CommNode(_, _, _, _) =>
        r := Err(Failed("unexpected node type in ast: *parser.CommNode"));
      case StmtNode(_, _) =>
        r := Err(Failed("unexpected node type in ast: *parser.StmtNode"));
    }
  }

  /** The if branch of render: the condition, then each else-if in
      order, then the else body. */
  method RenderIf(n: Node, ctx: Context, lib: Strcase) returns (r: Result<Step, RenderError>)
    requires ContextOk(ctx) && n.IfNode?
    ensures r == RenderNode(n, ctx, lib)
    decreases n, 0
  {
    var cv := Eval(n.ifTag.expr, ctx, lib);
    if cv.Err? {
      return Err(cv.error);
    }
    if AsBoolean(cv.value) {
      var body := Render(n.mainBody, ctx, lib);
      if body.Err? {
        return Err(body.error);
      }
      return Ok(Step(body.value, true));
    }
    var j := 0;
    while j < |n.elseIfs|
      invariant 0 <= j <= |n.elseIfs|
      invariant RenderElseIfs(n.elseIfs, ctx, lib) == RenderElseIfs(n.elseIfs[j..], ctx, lib)
    {
      assert n.elseIfs[j..][0] == n.elseIfs[j] && n.elseIfs[j..][1..] == n.elseIfs[j + 1..];
      var elseIf := n.elseIfs[j];
      var c := Eval(elseIf.elseIfTag.expr, ctx, lib);
      if c.Err? {
        return Err(c.error);
      }
      if AsBoolean(c.value) {
        assert elseIf in n.elseIfs;
        var body := Render(elseIf.body, ctx, lib);
        if body.Err? {
          return Err(body.error);
        }
        return Ok(Step(body.value, true));
      }
      j := j + 1;
    }
    var body := Render(n.elseBody.body, ctx, lib);
    if body.Err? {
      return Err(body.error);
    }
    r := Ok(Step(body.value, false));
  }

  /** The switch branch of render: the subject once, the cases in order
      until one is eql to it, else the default. */
  method RenderSwitch(n: Node, ctx: Context, lib: Strcase) returns (r: Result<Step, RenderError>)
    requires ContextOk(ctx) && n.SwitchNode?
    ensures r == RenderNode(n, ctx, lib)
    decreases n, 0
  {
    var sv := Eval(n.switchTag.expr, ctx, lib);
    if sv.Err? {
      return Err(sv.error);
    }
    var subject := sv.value;
    var j := 0;
    while j < |n.cases|
      invariant 0 <= j <= |n.cases|
      invariant RenderCases(n.cases, subject, ctx, lib) == RenderCases(n.cases[j..], subject, ctx, lib)
    {
      assert n.cases[j..][0] == n.cases[j] && n.cases[j..][1..] == n.cases[j + 1..];
      var c := n.cases[j];
      var v := Eval(c.caseTag.expr, ctx, lib);
      if v.Err? {
        return Err(v.error);
      }
      if Eql(subject, v.value) {
        assert c in n.cases;
        var body := Render(c.body, ctx, lib);
        if body.Err? {
          return Err(body.error);
        }
        return Ok(Step(body.value, false));
      }
      j := j + 1;
    }
    var body := Render(n.defaultCase, ctx, lib);
    if body.Err? {
      return Err(body.error);
    }
    r := Ok(Step(body.value, false));
  }
}
