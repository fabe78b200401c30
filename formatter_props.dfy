/** What the formatter's output means to the parser: for an expression
    in canonical shape, parsing its token run (FormatLayout.ExprTokens)
    gives the expression back, up to positions (Ast.Erase), and the same
    holds for a whole expression tag. */
module FormatterProps {
  import opened Wrappers
  import opened Strings
  import opened Tokens
  import opened Decimal
  import opened Ast
  import opened Grammar
  import opened Formatter
  import opened FormatLayout

  // The round trip, by induction on the expression. In each lemma the
  // tokens of e lie in toks from i, and end is the first index after
  // them that does not hold a space.

  /** A primary's tokens parse back to the primary. */
  lemma {:induction false} PrimaryRoundTrip(e: Expr, spell: Kind -> string, toks: seq<Token>, i: nat, j: nat)
    requires Primary(e) && Lays(toks, i, e, spell) && j == i + Width(e)
    ensures ParsePrimary(toks, i) == Ok(Parsed(Erase(e), SkipWs(toks, j)))
    decreases e, 1
  {
    match e
    case Ident(_, _) =>
      IdentRoundTrip(e, spell, toks, i);
    case StringLit(_, _, _) =>
      StringRoundTrip(e, spell, toks, i);
    case NumberLit(_, n) =>
      NormalizeNormal(n);
      NumberRoundTrip(n, toks, i, j);
    case ParenExpr(x, _, _) =>
      ParenRoundTrip(e, spell, toks, i, j);
  }

  lemma IdentRoundTrip(e: Expr, spell: Kind -> string, toks: seq<Token>, i: nat)
    requires e.Ident? && Lays(toks, i, e, spell)
    ensures ParsePrimary(toks, i) == Ok(Parsed(Erase(e), SkipWs(toks, i + 1)))
  {
    assert Cur(toks, i) == Tok(IDENT, e.name);
  }

  lemma StringRoundTrip(e: Expr, spell: Kind -> string, toks: seq<Token>, i: nat)
    requires e.StringLit? && Lays(toks, i, e, spell)
    ensures ParsePrimary(toks, i) == Ok(Parsed(Erase(e), SkipWs(toks, i + 1)))
  {
    var v := [e.quote] + e.text + [e.quote];
    assert Cur(toks, i) == Tok(STR, v);
    assert v[0] == e.quote && v[1..|v| - 1] == e.text;
  }

  /** A number's tokens, ending before j, parse back to the number. */
  lemma NumberRoundTrip(n: Number, toks: seq<Token>, i: nat, j: nat)
    requires PlainNumber(n) && Placed(toks, i, NumberTokens(n)) && j == i + |NumberTokens(n)|
    ensures ParsePrimary(toks, i) == Ok(Parsed(NumberLit(NoPos, n), SkipWs(toks, j)))
  {
    var r := NumberTokens(n);
    At(toks, i, r, 0, i);
    if n.mantissa < 0 {
      At(toks, i, r, 1, i + 1);
      NegativeText(n);
      PlainRoundTrip(Neg(n));
      MinusStep(toks, i, Neg(n));
      assert Neg(Neg(n)) == n;
    } else {
      PlainRoundTrip(n);
      NumberStep(toks, i, n);
    }
  }

  lemma {:induction false} ParenRoundTrip(e: Expr, spell: Kind -> string, toks: seq<Token>, i: nat, j: nat)
    requires e.ParenExpr? && Full(e.expr) && Lays(toks, i, e, spell) && j == i + Width(e)
    ensures ParsePrimary(toks, i) == Ok(Parsed(Erase(e), SkipWs(toks, j)))
    decreases e, 0
  {
    var shut := i + 1 + Width(e.expr);
    assert j == shut + 1;
    SkipNone(toks, shut);
    FullRoundTrip(e.expr, spell, toks, i + 1, shut);
    ParenStep(toks, i, Parsed(Erase(e.expr), shut));
  }

  /** `not` and `!` chains parse back, the space after `not` skipped. */
  lemma {:induction false} UnaryRoundTrip(e: Expr, spell: Kind -> string, toks: seq<Token>, i: nat, j: nat)
    requires Unary(e) && Lays(toks, i, e, spell) && j == i + Width(e)
    ensures ParseUnary(toks, i) == Ok(Parsed(Erase(e), SkipWs(toks, j)))
    decreases e, 2
  {
    if e.UnaryExpr? {
      NotRoundTrip(e, spell, toks, i, j);
    } else {
      PrimaryFirst(e, spell, toks, i);
      UnaryPrimary(toks, i);
      PrimaryRoundTrip(e, spell, toks, i, j);
    }
  }

  lemma {:induction false} NotRoundTrip(e: Expr, spell: Kind -> string, toks: seq<Token>, i: nat, j: nat)
    requires e.UnaryExpr? && (e.op.kind == NOT || e.op.kind == EXCL) && Unary(e.expr)
    requires Lays(toks, i, e, spell) && j == i + Width(e)
    ensures ParseUnary(toks, i) == Ok(Parsed(Erase(e), SkipWs(toks, j)))
    decreases e, 1
  {
    var x := e.expr;
    var k := i + (if e.op.kind == NOT then 2 else 1);
    BinaryFirst(x, 1, spell, toks, k);
    SkipNone(toks, k);
    if e.op.kind == NOT {
      SkipOne(toks, i + 1);
    }
    UnaryRoundTrip(x, spell, toks, k, j);
    UnaryStep(toks, i, Parsed(Erase(x), SkipWs(toks, j)));
  }

  /** An operator tree parses back: the operator loop, entered after its
      tokens with the same minimum level, finishes the parse. The token
      after the tree may not bind tighter than the tree's top operator,
      or the right operand would have taken it. */
  lemma {:induction false} BinaryRoundTrip(e: Expr, spell: Kind -> string, toks: seq<Token>, i: nat, min: int, j: nat, end: nat)
    requires min >= 1 && Binary(e, min) && Lays(toks, i, e, spell)
    requires j == i + Width(e) && end == SkipWs(toks, j)
    requires e.BinaryExpr? ==> Level(Cur(toks, end)) <= OpLevel(e.op.kind)
    ensures ParseBinary(toks, i, min) == BinaryLoop(toks, Erase(e), end, min)
    decreases e, 3
  {
    if Unary(e) {
      UnaryRoundTrip(e, spell, toks, i, j);
      BinaryStart(toks, i, min, Erase(e), end);
    } else {
      OperatorParts(e, min);
      if e.y.BinaryExpr? {
        TopLevel(e.y, OpLevel(e.op.kind) + 1);
      }
      var o := i + Width(e.x) + 1;
      var k := o + 2;
      OperandsAt(e, spell, toks, i, o, k);
      OperatorGap(e, spell, toks, i, o, k);
      OperatorRoundTrip(e, spell, toks, i, min, o, k, j, end);
    }
  }

  /** Where the parts of `x op y` lie in its tokens: x from i, the
      operator at o between single spaces, y from k, which starts with a
      token that is not a space. */
  lemma OperandsAt(e: Expr, spell: Kind -> string, toks: seq<Token>, i: nat, o: nat, k: nat)
    requires e.BinaryExpr? && Binary(e.y, OpLevel(e.op.kind) + 1) && Lays(toks, i, e, spell)
    requires o == i + Width(e.x) + 1 && k == o + 2
    ensures Lays(toks, i, e.x, spell) && Lays(toks, k, e.y, spell)
    ensures Gap(toks, o, e.op.kind, spell)
    ensures i + Width(e) == k + Width(e.y) <= |toks|
    ensures k < |toks| && toks[k].kind != WS
  {
    assert o - 1 == i + Width(e.x);
    assert k == i + Width(e.x) + 3;
    BinaryFirst(e.y, OpLevel(e.op.kind) + 1, spell, toks, k);
  }

  /** The operator of `x op y`, between single spaces, is found after x
      and skipped over to y. */
  lemma OperatorGap(e: Expr, spell: Kind -> string, toks: seq<Token>, i: nat, o: nat, k: nat)
    requires e.BinaryExpr? && OpLevel(e.op.kind) >= 1 && o == i + Width(e.x) + 1
    requires Gap(toks, o, e.op.kind, spell) && k == o + 2 && k < |toks| && toks[k].kind != WS
    ensures toks[o] == KwTok(e.op.kind, spell)
    ensures SkipWs(toks, i + Width(e.x)) == o && SkipWs(toks, o + 1) == k
  {
    SkipGap(toks, i + Width(e.x), o, k, e.op.kind, spell);
  }

  /** `x op y` laid out with op at o and y from k parses back: x stops at
      the operator, y (parsed one level higher) stops at end, and the
      operator loop joins them. */
  lemma {:induction false} OperatorRoundTrip(e: Expr, spell: Kind -> string, toks: seq<Token>, i: nat, min: int, o: nat, k: nat, j: nat, end: nat)
    requires e.BinaryExpr? && min >= 1 && OpLevel(e.op.kind) >= min
    requires Binary(e.x, min) && (e.x.BinaryExpr? ==> OpLevel(e.x.op.kind) >= OpLevel(e.op.kind))
    requires Binary(e.y, OpLevel(e.op.kind) + 1)
    requires e.y.BinaryExpr? ==> OpLevel(e.y.op.kind) >= OpLevel(e.op.kind) + 1
    requires Lays(toks, i, e.x, spell) && Lays(toks, k, e.y, spell)
    requires o + 2 == k < |toks| && toks[o] == KwTok(e.op.kind, spell)
    requires SkipWs(toks, i + Width(e.x)) == o && SkipWs(toks, o + 1) == k
    requires j == k + Width(e.y) && end == SkipWs(toks, j)
    requires Level(Cur(toks, end)) <= OpLevel(e.op.kind)
    ensures ParseBinary(toks, i, min) == BinaryLoop(toks, Erase(e), end, min)
    decreases e, 1
  {
    assert Erase(e) == BinaryExpr(Erase(e.x), Kw(e.op.kind, NoPos), Erase(e.y));
    KwAt(toks, o, e.op.kind, spell);
    LeftOperandRoundTrip(e, spell, toks, i, min, o);
    RightOperandRoundTrip(e, spell, toks, k, j, end);
    OperatorParse(toks, i, min, Erase(e.x), o, k, e.op.kind, OpLevel(e.op.kind), Erase(e.y), end);
  }

  /** The left operand of `x op y` parses back, stopping at the operator. */
  lemma {:induction false} LeftOperandRoundTrip(e: Expr, spell: Kind -> string, toks: seq<Token>, i: nat, min: int, o: nat)
    requires e.BinaryExpr? && min >= 1
    requires Binary(e.x, min) && (e.x.BinaryExpr? ==> OpLevel(e.x.op.kind) >= OpLevel(e.op.kind))
    requires Lays(toks, i, e.x, spell) && SkipWs(toks, i + Width(e.x)) == o
    requires Level(Cur(toks, o)) == OpLevel(e.op.kind)
    ensures ParseBinary(toks, i, min) == BinaryLoop(toks, Erase(e.x), o, min)
    decreases e, 0
  {
    BinaryRoundTrip(e.x, spell, toks, i, min, i + Width(e.x), o);
  }

  /** The right operand of `x op y`, parsed one level higher, parses back
      and stops at end. */
  lemma {:induction false} RightOperandRoundTrip(e: Expr, spell: Kind -> string, toks: seq<Token>, k: nat, j: nat, end: nat)
    requires e.BinaryExpr? && OpLevel(e.op.kind) >= 1
    requires Binary(e.y, OpLevel(e.op.kind) + 1)
    requires e.y.BinaryExpr? ==> OpLevel(e.y.op.kind) >= OpLevel(e.op.kind) + 1
    requires Lays(toks, k, e.y, spell) && j == k + Width(e.y) && end == SkipWs(toks, j)
    requires Level(Cur(toks, end)) <= OpLevel(e.op.kind)
    ensures ParseBinary(toks, k, OpLevel(e.op.kind) + 1) == BinaryLoop(toks, Erase(e.y), end, OpLevel(e.op.kind) + 1)
    decreases e, 0
  {
    BinaryRoundTrip(e.y, spell, toks, k, OpLevel(e.op.kind) + 1, j, end);
  }

  /** The operator loop reads `x op y` when x ends at the operator at o
      and y, parsed one level higher from k, stops before a token binding
      no tighter than op. */
  lemma OperatorParse(toks: seq<Token>, i: nat, min: int, x: Expr, o: nat, k: nat, op: Kind, level: int, y: Expr, end: nat)
    requires i <= |toks| + 1 && o < |toks| && k <= |toks| && end <= |toks| + 1 && min >= 1
    requires toks[o].kind == op && toks[o].pos == NoPos && Level(toks[o]) == level
    requires op != IS && level >= min && SkipWs(toks, o + 1) == k
    requires ParseBinary(toks, i, min) == BinaryLoop(toks, x, o, min)
    requires ParseBinary(toks, k, level + 1) == BinaryLoop(toks, y, end, level + 1)
    requires Level(Cur(toks, end)) <= level
    ensures ParseBinary(toks, i, min) == BinaryLoop(toks, BinaryExpr(x, Kw(op, NoPos), y), end, min)
  {
    LoopStops(toks, y, end, level + 1);
    LoopStep(toks, x, o, min, Parsed(y, end));
  }

  /** A full expression parses back to itself when it is followed by a
      token that ends expressions. */
  lemma {:induction false} FullRoundTrip(e: Expr, spell: Kind -> string, toks: seq<Token>, i: nat, end: nat)
    requires Full(e) && Lays(toks, i, e, spell)
    requires end == SkipWs(toks, i + Width(e)) && Stop(Cur(toks, end))
    ensures ParseExpr(toks, i) == Ok(Parsed(Erase(e), end))
    decreases e, 5
  {
    if Binary(e, 1) {
      BinaryEntry(e, spell, toks, i, i + Width(e), end);
    } else {
      TernaryEntry(e, spell, toks, i, end);
    }
  }

  /** An operator tree followed by a token that ends expressions parses
      back as a whole expression. */
  lemma {:induction false} BinaryEntry(e: Expr, spell: Kind -> string, toks: seq<Token>, i: nat, j: nat, end: nat)
    requires Binary(e, 1) && Lays(toks, i, e, spell)
    requires j == i + Width(e) && end == SkipWs(toks, j) && Stop(Cur(toks, end))
    ensures ParseExpr(toks, i) == Ok(Parsed(Erase(e), end))
    decreases e, 4
  {
    if e.BinaryExpr? {
      TopLevel(e, 1);
    }
    BinaryRoundTrip(e, spell, toks, i, 1, j, end);
    LoopStops(toks, Erase(e), end, 1);
    ParseExprStep(toks, i, Erase(e), end);
  }

  /** A ternary in canonical shape parses back: its parts are found in the
      token run, the keywords are skipped over, and the parts are read. */
  lemma {:induction false} TernaryEntry(e: Expr, spell: Kind -> string, toks: seq<Token>, i: nat, end: nat)
    requires e.TernaryExpr? && Binary(e.condition, 1) && Full(e.trueExpr) && Full(e.falseExpr)
    requires (e.doKw.kind == QUESTION && e.elseKw.kind == COLON) || (e.doKw.kind == DO && e.elseKw.kind == ELSE)
    requires Lays(toks, i, e, spell)
    requires end == SkipWs(toks, i + Width(e)) && Stop(Cur(toks, end))
    ensures ParseExpr(toks, i) == Ok(Parsed(Erase(e), end))
    decreases e, 3
  {
    var p := i + Width(e.condition) + 1;
    var q := p + 2;
    var r := q + Width(e.trueExpr) + 1;
    var f := r + 2;
    TernaryParts(e, spell, toks, i, p, q, r, f);
    TernaryGaps(e, spell, toks, i, p, q, r, f, end);
    TernaryRoundTrip(e, spell, toks, i, p, q, r, f, end);
  }

  /** Skipping spaces around the two keywords of a ternary lands on each
      keyword and then on the part after it. */
  lemma TernaryGaps(e: Expr, spell: Kind -> string, toks: seq<Token>, i: nat, p: nat, q: nat, r: nat, f: nat, end: nat)
    requires e.TernaryExpr? && e.doKw.kind != WS && e.elseKw.kind != WS
    requires p == i + Width(e.condition) + 1 && q == p + 2
    requires r == q + Width(e.trueExpr) + 1 && f == r + 2
    requires Gap(toks, p, e.doKw.kind, spell) && Gap(toks, r, e.elseKw.kind, spell)
    requires q < |toks| && toks[q].kind != WS && f < |toks| && toks[f].kind != WS
    requires end == SkipWs(toks, i + Width(e)) && i + Width(e) == f + Width(e.falseExpr)
    ensures toks[p] == KwTok(e.doKw.kind, spell) && toks[r] == KwTok(e.elseKw.kind, spell)
    ensures SkipWs(toks, i + Width(e.condition)) == p && SkipWs(toks, p + 1) == q
    ensures SkipWs(toks, q + Width(e.trueExpr)) == r && SkipWs(toks, r + 1) == f
    ensures end == SkipWs(toks, f + Width(e.falseExpr))
  {
    SkipGap(toks, i + Width(e.condition), p, q, e.doKw.kind, spell);
    SkipGap(toks, q + Width(e.trueExpr), r, f, e.elseKw.kind, spell);
  }

  /** Where the parts of a ternary's tokens lie: the condition from i, the
      first keyword at p between spaces, the first branch from q, the
      second keyword at r between spaces, the second branch from f; each
      branch starts with a token that is not a space. */
  lemma TernaryParts(e: Expr, spell: Kind -> string, toks: seq<Token>, i: nat, p: nat, q: nat, r: nat, f: nat)
    requires e.TernaryExpr? && Full(e.trueExpr) && Full(e.falseExpr) && Lays(toks, i, e, spell)
    requires p == i + Width(e.condition) + 1 && q == p + 2
    requires r == q + Width(e.trueExpr) + 1 && f == r + 2
    ensures Lays(toks, i, e.condition, spell) && Lays(toks, q, e.trueExpr, spell)
    ensures Lays(toks, f, e.falseExpr, spell)
    ensures Gap(toks, p, e.doKw.kind, spell) && Gap(toks, r, e.elseKw.kind, spell)
    ensures i + Width(e) == f + Width(e.falseExpr) <= |toks|
    ensures q < |toks| && toks[q].kind != WS && f < |toks| && toks[f].kind != WS
  {
    var c, t := e.condition, e.trueExpr;
    assert p - 1 == i + Width(c);
    assert q == i + Width(c) + 3;
    assert r - 1 == i + Width(c) + 3 + Width(t);
    assert f == i + Width(c) + 3 + Width(t) + 3;
    FullFirst(e.trueExpr, spell, toks, q);
    FullFirst(e.falseExpr, spell, toks, f);
  }

  /** A keyword at p with a single space on each side. */
  predicate Gap(toks: seq<Token>, p: nat, k: Kind, spell: Kind -> string) {
    1 <= p && OpAt(toks, p - 1, k, spell)
  }

  /** Skipping spaces from the space before a keyword between single
      spaces lands on the keyword, and after it on the next token n. */
  lemma SkipGap(toks: seq<Token>, before: nat, p: nat, n: nat, k: Kind, spell: Kind -> string)
    requires Gap(toks, p, k, spell) && k != WS
    requires before + 1 == p && n == p + 2 && n < |toks| && toks[n].kind != WS
    ensures toks[p] == KwTok(k, spell)
    ensures SkipWs(toks, before) == p && SkipWs(toks, p + 1) == n
  {
    SkipOne(toks, before);
    SkipNone(toks, p);
    SkipOne(toks, p + 1);
    SkipNone(toks, n);
  }

  /** The parts of a ternary, laid out around keywords at p and r and
      each followed by the token that stops it, parse back into the
      ternary. */
  lemma {:induction false} TernaryRoundTrip(e: Expr, spell: Kind -> string, toks: seq<Token>, i: nat, p: nat, q: nat, r: nat, f: nat, end: nat)
    requires e.TernaryExpr? && Binary(e.condition, 1) && Full(e.trueExpr) && Full(e.falseExpr)
    requires (e.doKw.kind == QUESTION && e.elseKw.kind == COLON) || (e.doKw.kind == DO && e.elseKw.kind == ELSE)
    requires p + 2 == q < |toks| && r + 2 == f < |toks|
    requires Lays(toks, i, e.condition, spell) && Lays(toks, q, e.trueExpr, spell)
    requires Lays(toks, f, e.falseExpr, spell)
    requires toks[p] == KwTok(e.doKw.kind, spell) && toks[r] == KwTok(e.elseKw.kind, spell)
    requires SkipWs(toks, i + Width(e.condition)) == p && SkipWs(toks, p + 1) == q
    requires SkipWs(toks, q + Width(e.trueExpr)) == r && SkipWs(toks, r + 1) == f
    requires end == SkipWs(toks, f + Width(e.falseExpr)) && Stop(Cur(toks, end))
    ensures ParseExpr(toks, i) == Ok(Parsed(Erase(e), end))
    decreases e, 2
  {
    TernaryKwAt(toks, p, e.doKw.kind, spell);
    TernaryKwAt(toks, r, e.elseKw.kind, spell);
    TrueBranchRoundTrip(e, spell, toks, q, r);
    FullRoundTrip(e.falseExpr, spell, toks, f, end);
    ConditionRoundTrip(e, spell, toks, i, p);
    TernaryParse(toks, i, Erase(e.condition), p, q, Erase(e.trueExpr), r, f, Erase(e.falseExpr), end);
  }

  /** The condition of a ternary parses back, stopping at the first
      keyword. */
  lemma {:induction false} ConditionRoundTrip(e: Expr, spell: Kind -> string, toks: seq<Token>, i: nat, p: nat)
    requires e.TernaryExpr? && Binary(e.condition, 1) && Level(Cur(toks, p)) == 0
    requires Lays(toks, i, e.condition, spell) && SkipWs(toks, i + Width(e.condition)) == p
    ensures ParseBinary(toks, i, 1) == BinaryLoop(toks, Erase(e.condition), p, 1)
    decreases e.condition, 4
  {
    var c := e.condition;
    if c.BinaryExpr? {
      TopLevel(c, 1);
      assert Level(Cur(toks, p)) <= OpLevel(c.op.kind);
    }
    BinaryRoundTrip(c, spell, toks, i, 1, i + Width(c), p);
  }

  /** The first branch of a ternary parses back, stopping at the second
      keyword. */
  lemma {:induction false} TrueBranchRoundTrip(e: Expr, spell: Kind -> string, toks: seq<Token>, q: nat, r: nat)
    requires e.TernaryExpr? && Full(e.trueExpr) && Stop(Cur(toks, r))
    requires Lays(toks, q, e.trueExpr, spell) && SkipWs(toks, q + Width(e.trueExpr)) == r
    ensures ParseExpr(toks, q) == Ok(Parsed(Erase(e.trueExpr), r))
    decreases e.trueExpr, 6
  {
    FullRoundTrip(e.trueExpr, spell, toks, q, r);
  }

  /** The ternary tail reads `c ? t : x` (or `c do t else x`) once each
      part has been read up to the keyword after it. */
  lemma TernaryParse(toks: seq<Token>, i: nat, c: Expr, p: nat, q: nat, t: Expr, r: nat, f: nat, x: Expr, end: nat)
    requires i <= |toks| + 1 && p < |toks| && r < |toks| && q <= |toks| && f <= |toks| && end <= |toks| + 1
    requires (toks[p].kind == QUESTION && toks[r].kind == COLON) || (toks[p].kind == DO && toks[r].kind == ELSE)
    requires SkipWs(toks, p + 1) == q && SkipWs(toks, r + 1) == f
    requires ParseBinary(toks, i, 1) == BinaryLoop(toks, c, p, 1)
    requires ParseExpr(toks, q) == Ok(Parsed(t, r))
    requires ParseExpr(toks, f) == Ok(Parsed(x, end))
    requires Stop(Cur(toks, end))
    ensures ParseExpr(toks, i)
         == Ok(Parsed(TernaryExpr(c, Kw(toks[p].kind, toks[p].pos), t, Kw(toks[r].kind, toks[r].pos), x), end))
  {
    LoopStops(toks, c, p, 1);
    TernaryStep(toks, i, c, p, Parsed(t, r), Parsed(x, end));
  }

  // ---------------------------------------------------------------
  // Expression tags
  // ---------------------------------------------------------------

  /** The tokens of a formatted expression tag `{{ e }}`. */
  function ExprNodeTokens(e: Expr, spell: Kind -> string): seq<Token> {
    [KwTok(LEXPR, spell), Space] + ExprTokens(e, spell) + [Space, KwTok(REXPR, spell)]
  }

  /** A canonical expression tag is formatted as the text of its tokens,
      and its positions do not show in the text. */
  lemma ExprNodeText(e: Expr)
    requires Full(e)
    ensures FormatNode(ExprNode(e), 0).Ok?
    ensures Text(ExprNodeTokens(e, TokenString)) == FormatNode(ExprNode(e), 0).value
    ensures FormatNode(ExprNode(Erase(e)), 0) == FormatNode(ExprNode(e), 0)
  {
    var open, te, close := [KwTok(LEXPR, TokenString), Space], ExprTokens(e, TokenString), [Space, KwTok(REXPR, TokenString)];
    FullFormattable(e);
    TokensSpellFormat(e);
    FormatIgnoresPositions(e, TokenString);
    TextAppend(open, te);
    TextAppend(open + te, close);
    TextTwo(open[0], Space);
    TextTwo(Space, close[1]);
    var s := FormatExpr(e).value;
    assert Text(ExprNodeTokens(e, TokenString)) == (TokenString(LEXPR) + " ") + s + (" " + TokenString(REXPR));
    assert (TokenString(LEXPR) + " ") + s + (" " + TokenString(REXPR))
        == TokenString(LEXPR) + " " + s + " " + TokenString(REXPR);
  }

  /** Where the parts of an expression tag's tokens lie. */
  lemma ExprNodeLayout(e: Expr, spell: Kind -> string)
    requires Full(e)
    ensures |ExprNodeTokens(e, spell)| == Width(e) + 4
    ensures Placed(ExprNodeTokens(e, spell), 2, ExprTokens(e, spell))
    ensures SkipWs(ExprNodeTokens(e, spell), 1) == 2
    ensures SkipWs(ExprNodeTokens(e, spell), 2 + Width(e)) == 3 + Width(e)
    ensures ExprNodeTokens(e, spell)[3 + Width(e)].kind == REXPR
  {
    var open, te, close := [KwTok(LEXPR, spell), Space], ExprTokens(e, spell), [Space, KwTok(REXPR, spell)];
    var toks := ExprNodeTokens(e, spell);
    var shut := 2 + Width(e);
    WidthTokens(e, spell);
    PlacedRest(toks, 0);
    assert toks[0..] == open + te + close;
    PlacedSplit(toks, 0, open + te, close, shut);
    PlacedSplit(toks, 0, open, te, 2);
    PlacedLays(toks, 2, e, spell);
    FullFirst(e, spell, toks, 2);
    At(toks, 0, open, 1, 1);
    SkipOne(toks, 1);
    SkipNone(toks, 2);
    At(toks, shut, close, 0, shut);
    At(toks, shut, close, 1, shut + 1);
    SkipOne(toks, shut);
    SkipNone(toks, shut + 1);
  }

  /** The tokens of a canonical expression tag parse back to the tag with
      the expression's positions erased. */
  lemma ExprNodeParse(e: Expr, spell: Kind -> string)
    requires Full(e)
    ensures ParseExprNode(ExprNodeTokens(e, spell), 0)
         == Ok(NodeStep(Some(ExprNode(Erase(e))), |ExprNodeTokens(e, spell)|))
  {
    ExprNodeLayout(e, spell);
    ExprTagParse(ExprNodeTokens(e, spell), e, spell, 3 + Width(e));
  }

  /** An expression laid at index 2, between `{{` and `}}` tokens each
      followed or preceded by one space, parses back as an expression tag. */
  lemma ExprTagParse(toks: seq<Token>, e: Expr, spell: Kind -> string, close: nat)
    requires Full(e) && Placed(toks, 2, ExprTokens(e, spell)) && SkipWs(toks, 1) == 2
    requires close == SkipWs(toks, 2 + Width(e)) && close + 1 == |toks| && toks[close].kind == REXPR
    ensures ParseExprNode(toks, 0) == Ok(NodeStep(Some(ExprNode(Erase(e))), |toks|))
  {
    PlacedLays(toks, 2, e, spell);
    FullRoundTrip(e, spell, toks, 2, close);
  }

  /** The formatter's output for a canonical expression tag reads back as
      the same tag, up to positions, and formats again to the same text. */
  lemma ExprNodeRoundTrip(e: Expr)
    requires Full(e)
    ensures FormatNode(ExprNode(e), 0).Ok?
    ensures Text(ExprNodeTokens(e, TokenString)) == FormatNode(ExprNode(e), 0).value
    ensures ParseExprNode(ExprNodeTokens(e, TokenString), 0)
         == Ok(NodeStep(Some(ExprNode(Erase(e))), |ExprNodeTokens(e, TokenString)|))
    ensures FormatNode(ExprNode(Erase(e)), 0) == FormatNode(ExprNode(e), 0)
  {
    ExprNodeText(e);
    ExprNodeParse(e, TokenString);
  }
}
