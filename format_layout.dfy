/** The token run of a formatted expression and where its parts lie.
    The formatter writes an expression as a run of tokens: operands,
    single spaces, and the spellings of operators and keywords.
    ExprTokens is that run; TokensSpellFormat shows it spells exactly the
    formatted text. The canonical shapes (Primary, Unary, Binary, Full)
    are the trees the parser builds, Lays states where each part of a
    tree lies in a token list, and the step lemmas at the end read one
    parser step off the token list. That the lexer turns the formatted
    text into this run is not proved here. */
module FormatLayout {
  import opened Wrappers
  import opened Strings
  import opened Tokens
  import opened Decimal
  import opened Ast
  import opened Grammar
  import opened Formatter

  function Tok(k: Kind, v: string): Token {
    Token(k, v, NoPos)
  }

  /** An operator or keyword token, written as spell(k). The parser
      reads only the kind of such a token, so the parsing lemmas hold
      for any spelling; the formatter's own is TokenString. */
  function KwTok(k: Kind, spell: Kind -> string): Token {
    Tok(k, spell(k))
  }

  /** The single space the formatter writes between parts. */
  const Space: Token := Tok(WS, " ")

  /** An operator or keyword with a space on each side. */
  function Around(k: Kind, spell: Kind -> string): seq<Token> {
    [Space, KwTok(k, spell), Space]
  }

  /** A number as the lexer reads its text: a leading `-` is a token of
      its own, and the digits are INT without a fraction, FLOAT with one. */
  function NumberTokens(v: Number): (r: seq<Token>)
    requires Normal(v)
    ensures |r| == if v.mantissa < 0 then 2 else 1
  {
    if v.mantissa < 0 then
      [Tok(MINUS, "-"), Tok(if v.scale == 0 then INT else FLOAT, NumberString(Neg(v)))]
    else [Tok(if v.scale == 0 then INT else FLOAT, NumberString(v))]
  }

  /** The tokens of the formatted expression, in order. Filters and the
      nil expression, which the formatter rejects, have none. */
  function ExprTokens(e: Expr, spell: Kind -> string): seq<Token> {
    match e
    case Ident(_, name) => [Tok(IDENT, name)]
    case StringLit(_, q, s) => [Tok(STR, [q] + s + [q])]
    case NumberLit(_, n) => NumberTokens(Normalize(n.mantissa, n.scale))
    case ParenExpr(x, _, _) => [KwTok(LPAREN, spell)] + ExprTokens(x, spell) + [KwTok(RPAREN, spell)]
    case UnaryExpr(op, x) =>
      [KwTok(op.kind, spell)] + (if op.kind == NOT then [Space] else []) + ExprTokens(x, spell)
    case BinaryExpr(x, op, y) => ExprTokens(x, spell) + Around(op.kind, spell) + ExprTokens(y, spell)
    case TernaryExpr(c, d, t, el, f) =>
      ExprTokens(c, spell) + Around(d.kind, spell) + ExprTokens(t, spell)
      + Around(el.kind, spell) + ExprTokens(f, spell)
    case FilterExpr(_, _, _, _) => []
    case Nil => []
  }

  /** The text a run of tokens spells. */
  function Text(toks: seq<Token>): string {
    if toks == [] then "" else toks[0].val + Text(toks[1..])
  }

  lemma {:induction false} TextAppend(a: seq<Token>, b: seq<Token>)
    ensures Text(a + b) == Text(a) + Text(b)
    decreases |a|
  {
    if a == [] {
      assert a + b == b;
    } else {
      assert (a + b)[1..] == a[1..] + b;
      TextAppend(a[1..], b);
    }
  }

  lemma TextOne(t: Token)
    ensures Text([t]) == t.val
  {
    assert [t][1..] == [];
  }

  lemma TextTwo(t: Token, u: Token)
    ensures Text([t, u]) == t.val + u.val
  {
    assert [t, u][1..] == [u];
    TextOne(u);
  }

  lemma TextAround(k: Kind, spell: Kind -> string)
    ensures Text(Around(k, spell)) == " " + spell(k) + " "
  {
    assert Around(k, spell)[1..] == [KwTok(k, spell), Space];
    TextTwo(KwTok(k, spell), Space);
  }

  lemma InfixText(a: seq<Token>, k: Kind, spell: Kind -> string, b: seq<Token>)
    ensures Text(a + Around(k, spell) + b) == Text(a) + (" " + spell(k) + " ") + Text(b)
  {
    TextAppend(a, Around(k, spell));
    TextAppend(a + Around(k, spell), b);
    TextAround(k, spell);
  }

  // ---------------------------------------------------------------
  // The tokens spell the formatted text
  // ---------------------------------------------------------------

  /** Every expression the formatter accepts is written as the text of
      its tokens, keywords spelled as TokenString spells them. */
  lemma {:induction false} TokensSpellFormat(e: Expr)
    requires Formattable(e)
    ensures Text(ExprTokens(e, TokenString)) == FormatExpr(e).value
  {
    match e
    case Ident(_, name) =>
      TextOne(Tok(IDENT, name));
    case StringLit(_, q, s) =>
      TextOne(Tok(STR, [q] + s + [q]));
    case NumberLit(_, n) =>
      NumberSpelling(Normalize(n.mantissa, n.scale));
    case ParenExpr(x, _, _) =>
      TokensSpellFormat(x);
      var open, close := [KwTok(LPAREN, TokenString)], [KwTok(RPAREN, TokenString)];
      TextAppend(open, ExprTokens(x, TokenString));
      TextAppend(open + ExprTokens(x, TokenString), close);
      TextOne(open[0]);
      TextOne(close[0]);
    case UnaryExpr(op, x) =>
      TokensSpellFormat(x);
      var head := [KwTok(op.kind, TokenString)] + (if op.kind == NOT then [Space] else []);
      TextAppend(head, ExprTokens(x, TokenString));
      if op.kind == NOT {
        TextTwo(head[0], Space);
      } else {
        TextOne(head[0]);
      }
    case BinaryExpr(x, op, y) =>
      TokensSpellFormat(x);
      TokensSpellFormat(y);
      InfixText(ExprTokens(x, TokenString), op.kind, TokenString, ExprTokens(y, TokenString));
    case TernaryExpr(c, d, t, el, f) =>
      TokensSpellFormat(c);
      TokensSpellFormat(t);
      TokensSpellFormat(f);
      var tc, tt, tf := ExprTokens(c, TokenString), ExprTokens(t, TokenString), ExprTokens(f, TokenString);
      InfixText(tc, d.kind, TokenString, tt);
      InfixText(tc + Around(d.kind, TokenString) + tt, el.kind, TokenString, tf);
  }

  /** The number tokens spell the number's text. */
  lemma NumberSpelling(v: Number)
    requires Normal(v)
    ensures Text(NumberTokens(v)) == NumberString(v)
  {
    if v.mantissa < 0 {
      NegativeText(v);
      TextTwo(NumberTokens(v)[0], NumberTokens(v)[1]);
    } else {
      TextOne(NumberTokens(v)[0]);
    }
  }

  /** Positions are not printed: a tree and its erasure format alike. */
  lemma {:induction false} FormatIgnoresPositions(e: Expr, spell: Kind -> string)
    ensures FormatExpr(Erase(e)) == FormatExpr(e) || (FormatExpr(e).Err? && FormatExpr(Erase(e)).Err?)
    ensures ExprTokens(Erase(e), spell) == ExprTokens(e, spell)
  {
    match e
    case ParenExpr(x, _, _) => FormatIgnoresPositions(x, spell);
    case UnaryExpr(_, x) => FormatIgnoresPositions(x, spell);
    case BinaryExpr(x, _, y) =>
      FormatIgnoresPositions(x, spell);
      FormatIgnoresPositions(y, spell);
    case TernaryExpr(c, _, t, _, f) =>
      FormatIgnoresPositions(c, spell);
      FormatIgnoresPositions(t, spell);
      FormatIgnoresPositions(f, spell);
    case FilterExpr(x, _, _, _) =>
    case _ =>
  }

  // ---------------------------------------------------------------
  // Canonical expressions
  // ---------------------------------------------------------------

  /** The binding level of an operator kind (0: not a binary operator). */
  function OpLevel(k: Kind): int {
    Level(Tok(k, ""))
  }

  /** A number whose text reads back as itself: normal, and either
      integral or printed without an exponent. */
  predicate PlainNumber(n: Number) {
    Normal(n) && (n.scale == 0 || !UsesExponent(n))
  }

  /** Expressions the parser reads as primaries. */
  predicate Primary(e: Expr)
    decreases e, 0
  {
    match e
    case Ident(_, _) => true
    case StringLit(_, _, _) => true
    case NumberLit(_, n) => PlainNumber(n)
    case ParenExpr(x, _, _) => Full(x)
    case _ => false
  }

  /** Primaries under any number of `not` and `!`. */
  predicate Unary(e: Expr)
    decreases e, 1
  {
    Primary(e) || (e.UnaryExpr? && (e.op.kind == NOT || e.op.kind == EXCL) && Unary(e.expr))
  }

  /** Trees the operator loop builds at minimum level min: operators bind
      at least min, chains lean left within a level, and a right operand
      binds strictly tighter than its operator. */
  predicate Binary(e: Expr, min: int)
    decreases e, 2
  {
    Unary(e)
    || (e.BinaryExpr? && OpLevel(e.op.kind) >= min && min >= 1
        && Binary(e.x, min) && (e.x.BinaryExpr? ==> OpLevel(e.x.op.kind) >= OpLevel(e.op.kind))
        && Binary(e.y, OpLevel(e.op.kind) + 1))
  }

  /** Full expressions: an operator tree, or a ternary (`? :` or
      `do else`) on an operator tree with full branches. Filters are not
      included: the formatter does not write them. */
  predicate Full(e: Expr)
    decreases e, 3
  {
    Binary(e, 1)
    || (e.TernaryExpr? && Binary(e.condition, 1)
        && ((e.doKw.kind == QUESTION && e.elseKw.kind == COLON) || (e.doKw.kind == DO && e.elseKw.kind == ELSE))
        && Full(e.trueExpr) && Full(e.falseExpr))
  }

  /** A token after which an expression ends: no operator, no ternary
      keyword and no filter arrow. */
  predicate Stop(t: Token) {
    Level(t) == 0 && t.kind != QUESTION && t.kind != DO && t.kind != RARR
  }

  /** Canonical expressions are formattable. */
  lemma {:induction false} BinaryFormattable(e: Expr, min: int)
    requires Binary(e, min)
    ensures Formattable(e)
    decreases e, 0
  {
    if !Unary(e) {
      OperatorParts(e, min);
      BinaryFormattable(e.x, min);
      BinaryFormattable(e.y, OpLevel(e.op.kind) + 1);
    } else {
      UnaryShape(e);
      if e.UnaryExpr? {
        BinaryFormattable(e.expr, 1);
      } else if e.ParenExpr? {
        FullFormattable(e.expr);
      }
    }
  }

  lemma {:induction false} FullFormattable(e: Expr)
    requires Full(e)
    ensures Formattable(e)
    decreases e, 1
  {
    if Binary(e, 1) {
      BinaryFormattable(e, 1);
    } else {
      BinaryFormattable(e.condition, 1);
      FullFormattable(e.trueExpr);
      FullFormattable(e.falseExpr);
    }
  }

  /** An operator tree that is not a unary expression has an operator at
      its top, with the shapes Binary asks of its operands. */
  lemma OperatorParts(e: Expr, min: int)
    requires Binary(e, min) && !Unary(e)
    ensures e.BinaryExpr? && min >= 1 && OpLevel(e.op.kind) >= min
    ensures Binary(e.x, min) && (e.x.BinaryExpr? ==> OpLevel(e.x.op.kind) >= OpLevel(e.op.kind))
    ensures Binary(e.y, OpLevel(e.op.kind) + 1)
  {
  }

  /** The shapes of unary expressions: a primary, or `not`/`!` before a
      unary expression. */
  lemma UnaryShape(e: Expr)
    requires Unary(e)
    ensures e.Ident? || e.StringLit? || e.NumberLit? || e.ParenExpr? || e.UnaryExpr?
    ensures e.UnaryExpr? ==> (e.op.kind == NOT || e.op.kind == EXCL) && Unary(e.expr)
    ensures e.ParenExpr? ==> Full(e.expr)
    ensures e.NumberLit? ==> PlainNumber(e.number)
  {
  }

  /** An operator tree whose top is an operator binds at least min. */
  lemma TopLevel(e: Expr, min: int)
    requires Binary(e, min) && e.BinaryExpr?
    ensures OpLevel(e.op.kind) >= min
  {
    assert !Primary(e);
  }

  // ---------------------------------------------------------------
  // Parsing the tokens back
  // ---------------------------------------------------------------

  /** The run s sits in toks from index i. Stated token by token, so
      that the solver unfolds it only as far as a proof asks. */
  predicate Placed(toks: seq<Token>, i: nat, s: seq<Token>)
    decreases |s|
  {
    i + |s| <= |toks| && (s == [] || (toks[i] == s[0] && Placed(toks, i + 1, s[1..])))
  }

  /** The token at n = i + k of a placed run. */
  lemma {:induction false} At(toks: seq<Token>, i: nat, s: seq<Token>, k: nat, n: nat)
    requires Placed(toks, i, s) && k < |s| && n == i + k
    ensures n < |toks| && toks[n] == s[k]
    decreases k
  {
    if k > 0 {
      At(toks, i + 1, s[1..], k - 1, n);
    }
  }

  /** A placed run split in two: the second part sits at j = i + |a|. */
  lemma {:induction false} PlacedSplit(toks: seq<Token>, i: nat, a: seq<Token>, b: seq<Token>, j: nat)
    requires Placed(toks, i, a + b) && j == i + |a|
    ensures Placed(toks, i, a) && Placed(toks, j, b)
    decreases |a|
  {
    if a == [] {
      assert a + b == b;
    } else {
      assert (a + b)[1..] == a[1..] + b;
      PlacedSplit(toks, i + 1, a[1..], b, j);
    }
  }

  /** Every list holds its own suffixes. */
  lemma {:induction false} PlacedRest(toks: seq<Token>, i: nat)
    requires i <= |toks|
    ensures Placed(toks, i, toks[i..])
    decreases |toks| - i
  {
    if i < |toks| {
      assert toks[i..][1..] == toks[i + 1..];
      PlacedRest(toks, i + 1);
    }
  }

  lemma SkipNone(toks: seq<Token>, i: nat)
    requires i < |toks| && toks[i].kind != WS
    ensures SkipWs(toks, i) == i
  {
  }

  lemma SkipOne(toks: seq<Token>, i: nat)
    requires i < |toks| && toks[i].kind == WS
    ensures SkipWs(toks, i) == SkipWs(toks, i + 1)
  {
  }

  /** The number of tokens of an expression. */
  function Width(e: Expr): nat {
    match e
    case Ident(_, _) => 1
    case StringLit(_, _, _) => 1
    case NumberLit(_, n) => if n.mantissa < 0 then 2 else 1
    case ParenExpr(x, _, _) => Width(x) + 2
    case UnaryExpr(op, x) => (if op.kind == NOT then 2 else 1) + Width(x)
    case BinaryExpr(x, _, y) => Width(x) + 3 + Width(y)
    case TernaryExpr(c, _, t, _, f) => Width(c) + 3 + Width(t) + 3 + Width(f)
    case FilterExpr(_, _, _, _) => 0
    case Nil => 0
  }

  lemma {:induction false} WidthTokens(e: Expr, spell: Kind -> string)
    ensures Width(e) == |ExprTokens(e, spell)|
  {
    match e
    case ParenExpr(x, _, _) => WidthTokens(x, spell);
    case UnaryExpr(_, x) => WidthTokens(x, spell);
    case BinaryExpr(x, _, y) =>
      WidthTokens(x, spell);
      WidthTokens(y, spell);
    case TernaryExpr(c, _, t, _, f) =>
      WidthTokens(c, spell);
      WidthTokens(t, spell);
      WidthTokens(f, spell);
    case _ =>
  }

  /** A spaced operator k at j: space, k, space. */
  predicate OpAt(toks: seq<Token>, j: nat, k: Kind, spell: Kind -> string) {
    j + 3 <= |toks| && toks[j] == Space && toks[j + 1] == KwTok(k, spell) && toks[j + 2] == Space
  }

  /** The tokens of e lie in toks from i, stated part by part along the
      tree (the same as Placed(toks, i, ExprTokens(e, spell)), see
      PlacedLays). */
  predicate Lays(toks: seq<Token>, i: nat, e: Expr, spell: Kind -> string)
    decreases e
  {
    i + Width(e) <= |toks| &&
    match e
    case Ident(_, name) => toks[i] == Tok(IDENT, name)
    case StringLit(_, q, s) => toks[i] == Tok(STR, [q] + s + [q])
    case NumberLit(_, n) => Placed(toks, i, NumberTokens(Normalize(n.mantissa, n.scale)))
    case ParenExpr(x, _, _) =>
      toks[i] == KwTok(LPAREN, spell) && Lays(toks, i + 1, x, spell)
      && toks[i + 1 + Width(x)] == KwTok(RPAREN, spell)
    case UnaryExpr(op, x) =>
      toks[i] == KwTok(op.kind, spell)
      && if op.kind == NOT then toks[i + 1] == Space && Lays(toks, i + 2, x, spell) else Lays(toks, i + 1, x, spell)
    case BinaryExpr(x, op, y) =>
      Lays(toks, i, x, spell) && OpAt(toks, i + Width(x), op.kind, spell)
      && Lays(toks, i + Width(x) + 3, y, spell)
    case TernaryExpr(c, d, t, el, f) =>
      Lays(toks, i, c, spell) && OpAt(toks, i + Width(c), d.kind, spell)
      && Lays(toks, i + Width(c) + 3, t, spell) && OpAt(toks, i + Width(c) + 3 + Width(t), el.kind, spell)
      && Lays(toks, i + Width(c) + 3 + Width(t) + 3, f, spell)
    case FilterExpr(_, _, _, _) => true
    case Nil => true
  }

  lemma AroundPlaced(toks: seq<Token>, j: nat, k: Kind, spell: Kind -> string)
    requires Placed(toks, j, Around(k, spell))
    ensures OpAt(toks, j, k, spell)
  {
    At(toks, j, Around(k, spell), 0, j);
    At(toks, j, Around(k, spell), 1, j + 1);
    At(toks, j, Around(k, spell), 2, j + 2);
  }

  /** Placed tokens lie part by part. */
  lemma {:induction false} PlacedLays(toks: seq<Token>, i: nat, e: Expr, spell: Kind -> string)
    requires Placed(toks, i, ExprTokens(e, spell))
    ensures Lays(toks, i, e, spell)
    decreases e, 1
  {
    match e
    case Ident(_, _) =>
      WidthTokens(e, spell);
      At(toks, i, ExprTokens(e, spell), 0, i);
    case StringLit(_, _, _) =>
      WidthTokens(e, spell);
      At(toks, i, ExprTokens(e, spell), 0, i);
    case NumberLit(_, _) =>
      WidthTokens(e, spell);
    case ParenExpr(_, _, _) =>
      PlacedParen(toks, i, e, spell);
    case UnaryExpr(_, _) =>
      PlacedUnary(toks, i, e, spell);
    case BinaryExpr(_, _, _) =>
      PlacedBinary(toks, i, e, spell);
    case TernaryExpr(_, _, _, _, _) =>
      PlacedTernary(toks, i, e, spell);
    case FilterExpr(_, _, _, _) =>
      WidthTokens(e, spell);
    case Nil =>
      WidthTokens(e, spell);
  }

  lemma {:induction false} PlacedParen(toks: seq<Token>, i: nat, e: Expr, spell: Kind -> string)
    requires e.ParenExpr? && Placed(toks, i, ExprTokens(e, spell))
    ensures Lays(toks, i, e, spell)
    decreases e, 0
  {
    var x := e.expr;
    var open, tx, close := [KwTok(LPAREN, spell)], ExprTokens(x, spell), [KwTok(RPAREN, spell)];
    var shut := i + 1 + Width(x);
    WidthTokens(e, spell);
    WidthTokens(x, spell);
    PlacedSplit(toks, i, open + tx, close, shut);
    PlacedSplit(toks, i, open, tx, i + 1);
    At(toks, i, open, 0, i);
    At(toks, shut, close, 0, shut);
    PlacedLays(toks, i + 1, x, spell);
  }

  lemma {:induction false} PlacedUnary(toks: seq<Token>, i: nat, e: Expr, spell: Kind -> string)
    requires e.UnaryExpr? && Placed(toks, i, ExprTokens(e, spell))
    ensures Lays(toks, i, e, spell)
    decreases e, 0
  {
    var x := e.expr;
    WidthTokens(e, spell);
    if e.op.kind == NOT {
      var head := [KwTok(NOT, spell), Space];
      assert ExprTokens(e, spell) == head + ExprTokens(x, spell);
      PlacedSplit(toks, i, head, ExprTokens(x, spell), i + 2);
      At(toks, i, head, 0, i);
      At(toks, i, head, 1, i + 1);
      PlacedLays(toks, i + 2, x, spell);
    } else {
      var head := [KwTok(e.op.kind, spell)];
      assert ExprTokens(e, spell) == head + ExprTokens(x, spell);
      PlacedSplit(toks, i, head, ExprTokens(x, spell), i + 1);
      At(toks, i, head, 0, i);
      PlacedLays(toks, i + 1, x, spell);
    }
  }

  lemma {:induction false} PlacedBinary(toks: seq<Token>, i: nat, e: Expr, spell: Kind -> string)
    requires e.BinaryExpr? && Placed(toks, i, ExprTokens(e, spell))
    ensures Lays(toks, i, e, spell)
    decreases e, 0
  {
    var a := i + Width(e.x);
    BinaryPlaced(toks, i, e, spell, a);
    PlacedLays(toks, i, e.x, spell);
    PlacedLays(toks, a + 3, e.y, spell);
    LaysBinary(toks, i, e, spell, a);
  }

  /** The runs of a binary expression's operands, and its spaced
      operator, in place. */
  lemma BinaryPlaced(toks: seq<Token>, i: nat, e: Expr, spell: Kind -> string, a: nat)
    requires e.BinaryExpr? && Placed(toks, i, ExprTokens(e, spell)) && a == i + Width(e.x)
    ensures Placed(toks, i, ExprTokens(e.x, spell)) && Placed(toks, a + 3, ExprTokens(e.y, spell))
    ensures OpAt(toks, a, e.op.kind, spell) && i + Width(e) <= |toks|
  {
    var tx, around := ExprTokens(e.x, spell), Around(e.op.kind, spell);
    var head := tx + around;
    WidthTokens(e, spell);
    WidthTokens(e.x, spell);
    PlacedSplit(toks, i, head, ExprTokens(e.y, spell), a + 3);
    PlacedSplit(toks, i, tx, around, a);
    AroundPlaced(toks, a, e.op.kind, spell);
  }

  /** A binary expression lies where its operands and its spaced operator do. */
  lemma LaysBinary(toks: seq<Token>, i: nat, e: Expr, spell: Kind -> string, a: nat)
    requires e.BinaryExpr? && a == i + Width(e.x) && i + Width(e) <= |toks|
    requires Lays(toks, i, e.x, spell) && OpAt(toks, a, e.op.kind, spell) && Lays(toks, a + 3, e.y, spell)
    ensures Lays(toks, i, e, spell)
  {
    assert a + 3 == i + Width(e.x) + 3;
  }

  lemma {:induction false} PlacedTernary(toks: seq<Token>, i: nat, e: Expr, spell: Kind -> string)
    requires e.TernaryExpr? && Placed(toks, i, ExprTokens(e, spell))
    ensures Lays(toks, i, e, spell)
    decreases e, 0
  {
    var a := i + Width(e.condition);
    var b := a + 3 + Width(e.trueExpr);
    TernaryPlaced(toks, i, e, spell, a, b);
    PlacedLays(toks, i, e.condition, spell);
    PlacedLays(toks, a + 3, e.trueExpr, spell);
    PlacedLays(toks, b + 3, e.falseExpr, spell);
    LaysTernary(toks, i, e, spell, a, b);
  }

  /** A ternary lies where its three parts and its two spaced keywords do. */
  lemma LaysTernary(toks: seq<Token>, i: nat, e: Expr, spell: Kind -> string, a: nat, b: nat)
    requires e.TernaryExpr? && a == i + Width(e.condition) && b == a + 3 + Width(e.trueExpr)
    requires i + Width(e) <= |toks|
    requires Lays(toks, i, e.condition, spell) && OpAt(toks, a, e.doKw.kind, spell)
    requires Lays(toks, a + 3, e.trueExpr, spell) && OpAt(toks, b, e.elseKw.kind, spell)
    requires Lays(toks, b + 3, e.falseExpr, spell)
    ensures Lays(toks, i, e, spell)
  {
    var c, t := e.condition, e.trueExpr;
    assert a + 3 == i + Width(c) + 3;
    assert b == i + Width(c) + 3 + Width(t);
    assert b + 3 == i + Width(c) + 3 + Width(t) + 3;
  }

  /** The runs of a ternary's parts, and its spaced keywords, in place. */
  lemma TernaryPlaced(toks: seq<Token>, i: nat, e: Expr, spell: Kind -> string, a: nat, b: nat)
    requires e.TernaryExpr? && Placed(toks, i, ExprTokens(e, spell))
    requires a == i + Width(e.condition) && b == a + 3 + Width(e.trueExpr)
    ensures Placed(toks, i, ExprTokens(e.condition, spell))
    ensures Placed(toks, a + 3, ExprTokens(e.trueExpr, spell))
    ensures Placed(toks, b + 3, ExprTokens(e.falseExpr, spell))
    ensures OpAt(toks, a, e.doKw.kind, spell) && OpAt(toks, b, e.elseKw.kind, spell)
    ensures i + Width(e) <= |toks|
  {
    var c, d, t, el, f := e.condition, e.doKw.kind, e.trueExpr, e.elseKw.kind, e.falseExpr;
    var tc, tt, tf := ExprTokens(c, spell), ExprTokens(t, spell), ExprTokens(f, spell);
    var head := tc + Around(d, spell);
    var first := head + tt;
    var rest := first + Around(el, spell);
    WidthTokens(c, spell);
    WidthTokens(t, spell);
    WidthTokens(e, spell);
    PlacedSplit(toks, i, rest, tf, b + 3);
    PlacedSplit(toks, i, first, Around(el, spell), b);
    PlacedSplit(toks, i, head, tt, a + 3);
    PlacedSplit(toks, i, tc, Around(d, spell), a);
    AroundPlaced(toks, a, d, spell);
    AroundPlaced(toks, b, el, spell);
  }

  /** A primary does not start with `not` or `!`. */
  lemma PrimaryFirst(e: Expr, spell: Kind -> string, toks: seq<Token>, i: nat)
    requires Primary(e) && Lays(toks, i, e, spell)
    ensures i < |toks| && toks[i].kind != WS && toks[i].kind != NOT && toks[i].kind != EXCL
  {
    if e.NumberLit? {
      NormalizeNormal(e.number);
      At(toks, i, NumberTokens(e.number), 0, i);
    }
  }

  /** An operator tree starts with a token that is not a space. */
  lemma {:induction false} BinaryFirst(e: Expr, min: int, spell: Kind -> string, toks: seq<Token>, i: nat)
    requires Binary(e, min) && Lays(toks, i, e, spell)
    ensures i < |toks| && toks[i].kind != WS
    decreases e
  {
    if !Unary(e) {
      OperatorParts(e, min);
      BinaryFirst(e.x, min, spell, toks, i);
    } else {
      UnaryShape(e);
      if !e.UnaryExpr? {
        PrimaryFirst(e, spell, toks, i);
      }
    }
  }

  /** A full expression starts with a token that is not a space. */
  lemma FullFirst(e: Expr, spell: Kind -> string, toks: seq<Token>, i: nat)
    requires Full(e) && Lays(toks, i, e, spell)
    ensures i < |toks| && toks[i].kind != WS
  {
    if Binary(e, 1) {
      BinaryFirst(e, 1, spell, toks, i);
    } else {
      BinaryFirst(e.condition, 1, spell, toks, i);
    }
  }

  /** Skipping from two equal indices ends at the same place. */
  lemma SkipSame(toks: seq<Token>, a: nat, b: nat)
    requires a == b && a <= |toks|
    ensures SkipWs(toks, a) == SkipWs(toks, b) && SkipWs(toks, a) <= |toks|
  {
  }

  /** A keyword token binds as its kind does. */
  lemma KwLevel(k: Kind, spell: Kind -> string)
    ensures Level(KwTok(k, spell)) == OpLevel(k)
  {
  }

  /** An operator token at o, as the operator loop sees it. */
  lemma KwAt(toks: seq<Token>, o: nat, k: Kind, spell: Kind -> string)
    requires o < |toks| && toks[o] == KwTok(k, spell)
    ensures Cur(toks, o) == toks[o] && toks[o].kind == k && toks[o].pos == NoPos
    ensures Level(toks[o]) == OpLevel(k) && Level(Cur(toks, o)) == OpLevel(k)
  {
    KwLevel(k, spell);
  }

  /** A ternary keyword at p binds at level 0, so it ends an operator
      tree; the second one (`:` or `else`) also ends a full expression. */
  lemma TernaryKwAt(toks: seq<Token>, p: nat, k: Kind, spell: Kind -> string)
    requires p < |toks| && toks[p] == KwTok(k, spell)
    requires k == QUESTION || k == DO || k == COLON || k == ELSE
    ensures Cur(toks, p).kind == k && Level(Cur(toks, p)) == 0
    ensures k == COLON || k == ELSE ==> Stop(Cur(toks, p))
  {
    KwLevel(k, spell);
  }

  // One step of each parse function, given the results of the calls it
  // makes.

  lemma ParseExprStep(toks: seq<Token>, i: nat, e: Expr, j: nat)
    requires i <= |toks| + 1 && j <= |toks| + 1
    requires ParseBinary(toks, i, 1) == Ok(Parsed(e, j))
    requires Stop(Cur(toks, j))
    ensures ParseExpr(toks, i) == Ok(Parsed(e, j))
  {
    assert TernaryTail(toks, e, j) == Ok(Parsed(e, j));
    assert ParseTernary(toks, i, 1) == Ok(Parsed(e, j));
    assert FilterLoop(toks, e, j) == Ok(Parsed(e, j));
  }

  lemma TernaryStep(toks: seq<Token>, i: nat, c: Expr, j: nat, t: Parsed, f: Parsed)
    requires i <= |toks| + 1 && j < |toks|
    requires ParseBinary(toks, i, 1) == Ok(Parsed(c, j))
    requires toks[j].kind == QUESTION || toks[j].kind == DO
    requires ParseExpr(toks, SkipWs(toks, j + 1)) == Ok(t) && t.next < |toks|
    requires toks[t.next].kind == (if toks[j].kind == QUESTION then COLON else ELSE)
    requires ParseExpr(toks, SkipWs(toks, t.next + 1)) == Ok(f)
    requires Cur(toks, f.next).kind != RARR
    ensures ParseExpr(toks, i)
         == Ok(Parsed(TernaryExpr(c, Kw(toks[j].kind, toks[j].pos), t.e, Kw(toks[t.next].kind, toks[t.next].pos), f.e), f.next))
  {
    var r := TernaryExpr(c, Kw(toks[j].kind, toks[j].pos), t.e, Kw(toks[t.next].kind, toks[t.next].pos), f.e);
    assert TernaryTail(toks, c, j) == Ok(Parsed(r, f.next));
    assert ParseTernary(toks, i, 1) == Ok(Parsed(r, f.next));
    assert FilterLoop(toks, r, f.next) == Ok(Parsed(r, f.next));
  }

  lemma BinaryStart(toks: seq<Token>, i: nat, min: int, u: Expr, j: nat)
    requires i <= |toks| + 1 && min >= 1
    requires ParseUnary(toks, i) == Ok(Parsed(u, j))
    ensures ParseBinary(toks, i, min) == BinaryLoop(toks, u, j, min)
  {
  }

  lemma LoopStops(toks: seq<Token>, left: Expr, j: nat, min: int)
    requires j <= |toks| + 1 && min >= 1 && Level(Cur(toks, j)) < min
    ensures BinaryLoop(toks, left, j, min) == Ok(Parsed(left, j))
  {
  }

  lemma LoopStep(toks: seq<Token>, left: Expr, at: nat, min: int, y: Parsed)
    requires at < |toks| && min >= 1
    requires toks[at].kind != IS && Level(toks[at]) >= min
    requires ParseBinary(toks, SkipWs(toks, at + 1), Level(toks[at]) + 1) == Ok(y)
    ensures BinaryLoop(toks, left, at, min)
         == BinaryLoop(toks, BinaryExpr(left, Kw(toks[at].kind, toks[at].pos), y.e), y.next, min)
  {
  }

  lemma UnaryStep(toks: seq<Token>, i: nat, x: Parsed)
    requires i < |toks| && (toks[i].kind == NOT || toks[i].kind == EXCL)
    requires ParseUnary(toks, SkipWs(toks, i + 1)) == Ok(x)
    ensures ParseUnary(toks, i) == Ok(Parsed(UnaryExpr(Kw(toks[i].kind, toks[i].pos), x.e), x.next))
  {
  }

  lemma UnaryPrimary(toks: seq<Token>, i: nat)
    requires i < |toks| && toks[i].kind != NOT && toks[i].kind != EXCL
    ensures ParseUnary(toks, i) == ParsePrimary(toks, i)
  {
  }

  lemma ParenStep(toks: seq<Token>, i: nat, x: Parsed)
    requires i < |toks| && toks[i].kind == LPAREN
    requires ParseExpr(toks, i + 1) == Ok(x) && x.next < |toks| && toks[x.next].kind == RPAREN
    ensures ParsePrimary(toks, i) == Ok(Parsed(ParenExpr(x.e, toks[i].pos, toks[x.next].pos), SkipWs(toks, x.next + 1)))
  {
  }

  lemma NumberStep(toks: seq<Token>, i: nat, v: Number)
    requires i < |toks| && (toks[i].kind == INT || toks[i].kind == FLOAT)
    requires ParseDecimal(toks[i].val) == Some(v)
    ensures ParsePrimary(toks, i) == Ok(Parsed(NumberLit(toks[i].pos, v), SkipWs(toks, i + 1)))
  {
    var t := Cur(toks, i);
    assert t == toks[i] && t.kind != IDENT && t.kind != STR && t.kind != MINUS;
    assert ParseDecimal(t.val) == Some(v);
  }

  lemma MinusStep(toks: seq<Token>, i: nat, v: Number)
    requires i + 1 < |toks| && toks[i].kind == MINUS && (toks[i + 1].kind == INT || toks[i + 1].kind == FLOAT)
    requires ParseDecimal(toks[i + 1].val) == Some(v)
    ensures ParsePrimary(toks, i) == Ok(Parsed(NumberLit(toks[i + 1].pos, Neg(v)), SkipWs(toks, i + 2)))
  {
    var t, u := Cur(toks, i), Cur(toks, i + 1);
    assert t == toks[i] && u == toks[i + 1] && t.kind != IDENT && t.kind != STR;
  }
}
