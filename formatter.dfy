/** The formatter (formatter/formatter.go): text and expression nodes
    written back as canonical template text. */
module Formatter {
  import opened Wrappers
  import opened Strings
  import opened Tokens
  import opened Decimal
  import opened Ast

  /** The two errors: a node or an expression kind the formatter does not
      write. The message prints the offending value with %s or %v; here
      the error carries the value itself. */
  datatype FormatError = UnknownNodeType(node: Node) | UnknownExpressionType(expr: Expr)

  /** The expressions the formatter can write: no filter and no nil
      expression anywhere inside. */
  predicate Formattable(e: Expr) {
    match e
    case NumberLit(_, _) => true
    case StringLit(_, _, _) => true
    case Ident(_, _) => true
    case UnaryExpr(_, x) => Formattable(x)
    case BinaryExpr(x, _, y) => Formattable(x) && Formattable(y)
    case TernaryExpr(c, _, t, _, f) => Formattable(c) && Formattable(t) && Formattable(f)
    case ParenExpr(x, _, _) => Formattable(x)
    case FilterExpr(_, _, _, _) => false
    case Nil => false
  }

  /** The text of a number literal: its value's AsString. */
  function NumberText(n: Number): (s: string)
    ensures |s| > 0
  {
    NumberString(Normalize(n.mantissa, n.scale))
  }

  /** An operator or keyword between single spaces. */
  function Spaced(k: Kind): (s: string)
    ensures |s| >= 2 && s[0] == ' ' && s[|s| - 1] == ' '
  {
    " " + TokenString(k) + " "
  }

  /** Two formatted operands with an operator or keyword between them;
      the left operand's error comes first. */
  function Infix(a: Result<string, FormatError>, k: Kind, b: Result<string, FormatError>): (r: Result<string, FormatError>)
    ensures r.Ok? <==> a.Ok? && b.Ok?
    ensures a.Err? ==> r == a
  {
    match a
    case Err(_) => a
    case Ok(sa) =>
      match b
      case Err(_) => b
      case Ok(sb) => Ok(sa + Spaced(k) + sb)
  }

  /** formatExpr: operands in order, binary operators and ternary
      keywords between single spaces, `not` followed by a space and `!`
      not, parentheses with no inner space, a string in its own quote. The
      first expression it cannot write is the error. */
  function FormatExpr(e: Expr): (r: Result<string, FormatError>)
    ensures r.Ok? <==> Formattable(e)
    ensures r.Err? ==> r.error.UnknownExpressionType?
  {
    match e
    case StringLit(_, quote, text) => Ok([quote] + text + [quote])
    case NumberLit(_, n) => Ok(NumberText(n))
    case ParenExpr(x, _, _) =>
      (match FormatExpr(x)
       case Err(err) => Err(err)
       case Ok(s) => Ok(TokenString(LPAREN) + s + TokenString(RPAREN)))
    case UnaryExpr(op, x) =>
      (match FormatExpr(x)
       case Err(err) => Err(err)
       case Ok(s) => Ok(TokenString(op.kind) + (if op.kind == NOT then " " else "") + s))
    case BinaryExpr(x, op, y) => Infix(FormatExpr(x), op.kind, FormatExpr(y))
    case Ident(_, name) =>
      Ok(name)
    case TernaryExpr(c, d, t, el, f) =>
      Infix(Infix(FormatExpr(c), d.kind, FormatExpr(t)), el.kind, FormatExpr(f))
    case FilterExpr(_, _, _, _) => Err(UnknownExpressionType(e))
    case Nil => Err(UnknownExpressionType(e))
  }

  /** formatNode: a text node as its indentation and its joined pieces,
      an expression node as `{{ e }}`; any other node is an error. */
  function FormatNode(n: Node, indentLevel: nat): (r: Result<string, FormatError>)
    ensures r.Ok? <==> n.TextNode? || (n.ExprNode? && Formattable(n.body))
  {
    match n
    case TextNode(_, pieces) => Ok(Repeat("\t", indentLevel) + Join(pieces, ""))
    case ExprNode(body) =>
      (match FormatExpr(body)
       case Err(err) => Err(err)
       case Ok(s) => Ok(TokenString(LEXPR) + " " + s + " " + TokenString(REXPR)))
    case _ => Err(UnknownNodeType(n))
  }

  /** FromAst: every node at indentation 0, in order; the first error
      discards the output. */
  function FormatNodes(nodes: seq<Node>): (r: Result<string, FormatError>)
    ensures r.Err? ==> exists i :: 0 <= i < |nodes| && FormatNode(nodes[i], 0) == r
  {
    if nodes == [] then Ok("")
    else
      match FormatNodes(nodes[..|nodes| - 1])
      case Err(err) => Err(err)
      case Ok(s) =>
        match FormatNode(nodes[|nodes| - 1], 0)
        case Err(err) => Err(err)
        case Ok(t) => Ok(s + t)
  }

  /** The buffer formatNode and formatExpr write into. */
  class Writer {
    var buf: string

    constructor ()
      ensures buf == ""
    {
      buf := "";
    }

    method WriteExpr(e: Expr) returns (err: Option<FormatError>)
      modifies this
      ensures err.None? ==> FormatExpr(e).Ok? && buf == old(buf) + FormatExpr(e).value
      ensures err.Some? ==> FormatExpr(e) == Err(err.value)
      decreases e, 2
    {
      err := None;
      match e {
        case StringLit(_, quote, text) =>
          buf := buf + [quote];
          buf := buf + text;
          buf := buf + [quote];
        case NumberLit(_, n) =>
          buf := buf + NumberText(n);
        case Ident(_, name) =>
          buf := buf + name;
        case ParenExpr(_, _, _) =>
          err := WriteParen(e);
        case UnaryExpr(_, _) =>
          err := WriteUnary(e);
        case BinaryExpr(_, _, _) =>
          err := WriteBinary(e);
        case TernaryExpr(_, _, _, _, _) =>
          err := WriteTernary(e);
        case FilterExpr(_, _, _, _) =>
          err := Some(UnknownExpressionType(e));
        case Nil =>
          err := Some(UnknownExpressionType(e));
      }
    }

    method WriteParen(e: Expr) returns (err: Option<FormatError>)
      requires e.ParenExpr?
      modifies this
      ensures err.None? ==> FormatExpr(e).Ok? && buf == old(buf) + FormatExpr(e).value
      ensures err.Some? ==> FormatExpr(e) == Err(err.value)
      decreases e, 0
    {
      buf := buf + TokenString(LPAREN);
      err := WriteExpr(e.expr);
      if err.Some? {
        return;
      }
      buf := buf + TokenString(RPAREN);
      Appended(old(buf), TokenString(LPAREN), FormatExpr(e.expr).value, TokenString(RPAREN));
    }

    method WriteUnary(e: Expr) returns (err: Option<FormatError>)
      requires e.UnaryExpr?
      modifies this
      ensures err.None? ==> FormatExpr(e).Ok? && buf == old(buf) + FormatExpr(e).value
      ensures err.Some? ==> FormatExpr(e) == Err(err.value)
      decreases e, 0
    {
      buf := buf + TokenString(e.op.kind);
      if e.op.kind == NOT {
        buf := buf + " ";
      }
      err := WriteExpr(e.expr);
    }

    method WriteBinary(e: Expr) returns (err: Option<FormatError>)
      requires e.BinaryExpr?
      modifies this
      ensures err.None? ==> FormatExpr(e).Ok? && buf == old(buf) + FormatExpr(e).value
      ensures err.Some? ==> FormatExpr(e) == Err(err.value)
      decreases e, 1
    {
      err := WriteInfix(e.x, e.op.kind, e.y, e);
    }

    method WriteTernary(e: Expr) returns (err: Option<FormatError>)
      requires e.TernaryExpr?
      modifies this
      ensures err.None? ==> FormatExpr(e).Ok? && buf == old(buf) + FormatExpr(e).value
      ensures err.Some? ==> FormatExpr(e) == Err(err.value)
      decreases e, 1
    {
      err := WriteInfix(e.condition, e.doKw.kind, e.trueExpr, e);
      if err.Some? {
        return;
      }
      ghost var head := buf;
      buf := buf + Spaced(e.elseKw.kind);
      err := WriteExpr(e.falseExpr);
      if err.Some? {
        return;
      }
      Appended(old(buf), Infix(FormatExpr(e.condition), e.doKw.kind, FormatExpr(e.trueExpr)).value,
        Spaced(e.elseKw.kind), FormatExpr(e.falseExpr).value);
    }

    /** Two operands with an operator or keyword between single spaces. */
    method WriteInfix(x: Expr, k: Kind, y: Expr, ghost whole: Expr) returns (err: Option<FormatError>)
      requires x < whole && y < whole
      modifies this
      ensures err.None? ==>
        Infix(FormatExpr(x), k, FormatExpr(y)).Ok? && buf == old(buf) + Infix(FormatExpr(x), k, FormatExpr(y)).value
      ensures err.Some? ==> Infix(FormatExpr(x), k, FormatExpr(y)) == Err(err.value)
      decreases whole, 0
    {
      err := WriteExpr(x);
      if err.Some? {
        return;
      }
      buf := buf + Spaced(k);
      err := WriteExpr(y);
      if err.Some? {
        return;
      }
      Appended(old(buf), FormatExpr(x).value, Spaced(k), FormatExpr(y).value);
    }

    method WriteNode(n: Node, indentLevel: nat) returns (err: Option<FormatError>)
      modifies this
      ensures err.None? <==> FormatNode(n, indentLevel).Ok?
      ensures err.None? ==> buf == old(buf) + FormatNode(n, indentLevel).value
      ensures err.Some? ==> FormatNode(n, indentLevel) == Err(err.value)
    {
      err := None;
      var indent := Repeat("\t", indentLevel);
      match n {
        case TextNode(_, pieces) =>
          buf := buf + indent;
          buf := buf + Join(pieces, "");
          assert buf == old(buf) + (indent + Join(pieces, ""));
        case ExprNode(body) =>
          buf := buf + TokenString(LEXPR) + " ";
          ghost var mid := buf;
          err := WriteExpr(body);
          if err.Some? {
            return;
          }
          ghost var s := FormatExpr(body).value;
          buf := buf + " " + TokenString(REXPR);
          assert buf == old(buf) + (TokenString(LEXPR) + " " + s + " " + TokenString(REXPR));
        case _ =>
          err := Some(UnknownNodeType(n));
      }
    }
  }

  /** Appending three strings one after another is appending their
      concatenation. */
  lemma Appended(a: string, x: string, sep: string, y: string)
    ensures a + x + sep + y == a + (x + sep + y)
    ensures x + sep + y == x + (sep + y)
  {
  }

  /** FromAst as the source computes it: one buffer, each node written
      into it in turn. */
  method FromAst(nodes: seq<Node>) returns (r: Result<string, FormatError>)
    ensures r == FormatNodes(nodes)
  {
    var w := new Writer();
    for i := 0 to |nodes|
      invariant FormatNodes(nodes[..i]) == Ok(w.buf)
    {
      assert nodes[..i + 1][..i] == nodes[..i];
      var err := w.WriteNode(nodes[i], 0);
      if err.Some? {
        FirstErrorWins(nodes[..i + 1], nodes[i + 1..]);
        assert nodes[..i + 1] + nodes[i + 1..] == nodes;
        return Err(err.value);
      }
    }
    assert nodes[..|nodes|] == nodes;
    r := Ok(w.buf);
  }

  /** The nodes format exactly when each of them does. */
  lemma {:induction false} FormatNodesOk(nodes: seq<Node>)
    ensures FormatNodes(nodes).Ok? <==> forall i :: 0 <= i < |nodes| ==> FormatNode(nodes[i], 0).Ok?
    decreases |nodes|
  {
    if nodes != [] {
      var init := nodes[..|nodes| - 1];
      FormatNodesOk(init);
      assert forall i :: 0 <= i < |init| ==> init[i] == nodes[i];
    }
  }

  /** Once a prefix of the nodes fails, the nodes after it change
      nothing: the first error is the result. */
  lemma {:induction false} FirstErrorWins(a: seq<Node>, b: seq<Node>)
    requires FormatNodes(a).Err?
    ensures FormatNodes(a + b) == FormatNodes(a)
    decreases |b|
  {
    if b != [] {
      var ab := a + b;
      assert ab[..|ab| - 1] == a + b[..|b| - 1];
      FirstErrorWins(a, b[..|b| - 1]);
    } else {
      assert a + b == a;
    }
  }

  /** One more node appends its text. */
  lemma FormatNodesSnoc(init: seq<Node>, n: Node)
    requires FormatNodes(init).Ok? && FormatNode(n, 0).Ok?
    ensures FormatNodes(init + [n]) == Ok(FormatNodes(init).value + FormatNode(n, 0).value)
  {
    assert (init + [n])[..|init|] == init;
  }

  /** The output is the nodes' texts in order: formatting a sequence of
      nodes is formatting each part and concatenating. */
  lemma {:induction false} FormatNodesAppend(a: seq<Node>, b: seq<Node>)
    requires FormatNodes(a).Ok? && FormatNodes(b).Ok?
    ensures FormatNodes(a + b) == Ok(FormatNodes(a).value + FormatNodes(b).value)
    decreases |b|
  {
    if b == [] {
      assert a + b == a;
      assert FormatNodes(a).value + "" == FormatNodes(a).value;
    } else {
      var b', last := b[..|b| - 1], b[|b| - 1];
      assert b == b' + [last];
      assert a + b == (a + b') + [last];
      FormatNodesAppend(a, b');
      FormatNodesSnoc(a + b', last);
      FormatNodesSnoc(b', last);
      Appended([], FormatNodes(a).value, FormatNodes(b').value, FormatNode(last, 0).value);
    }
  }
}
