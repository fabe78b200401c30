/** `accept` as written in lexer/lexer.go: it reads with `next` and
    steps back with `back` on a mismatch. At the end of input `next`
    reads eof without moving, but `back` still moves one byte back, so a
    number that ends the input is read again and again: lexNum and
    lexRealExpr hand it to each other forever. The model of the lexer
    (LexSpec.Accept) uses the corrected form, which leaves the cursor
    where it is at the end of input; this module keeps the as-written
    form and exhibits the cycle. */
module LexFindings {
  import opened Strings
  import opened Tokens
  import opened LexSpec

  /** accept as written: next, then back unless the byte read is valid. */
  function AcceptAsWritten(src: string, p: nat, valid: string): (r: (bool, nat))
    requires p <= |src|
    ensures p < |src| ==> r == Accept(src, p, valid)
    ensures p == |src| ==> r == (Eof in valid, if Eof in valid || p == 0 then p else p - 1)
  {
    var ch := Peek(src, p);
    var q := Advance(src, p);
    if ch in valid then (true, q) else (false, if q > 0 then q - 1 else q)
  }

  /** acceptRun as written. It ends one byte early when the run reaches
      the end of input (and would not end at all if eof were valid). */
  function AcceptRunAsWritten(src: string, p: nat, valid: string): (r: nat)
    requires p <= |src| && Eof !in valid
    ensures var run := AcceptRun(src, p, valid);
      r == if run == |src| && |src| > 0 then |src| - 1 else run
    decreases |src| - p
  {
    var a := AcceptAsWritten(src, p, valid);
    if a.0 then AcceptRunAsWritten(src, a.1, valid) else a.1
  }

  /** lexNum as written. lexRealExpr enters it having read the first
      digit, so the cursor is past the pending bytes' start. */
  function LexNumAsWritten(src: string, c: Cfg, next: State): (r: (Cfg, State))
    requires Bounded(src, c) && c.start < c.pos
    ensures Bounded(src, r.0) && r.1 == next
    ensures LexNum(src, c, next).0.pos < |src| ==> r == LexNum(src, c, next)
  {
    var p1 := AcceptRunAsWritten(src, c.pos, Digits);
    var dot := AcceptAsWritten(src, p1, ".");
    if dot.0 then (Emit(src, c.(pos := AcceptRunAsWritten(src, dot.1, Digits)), FLOAT), next)
    else (Emit(src, c.(pos := dot.1), INT), next)
  }

  /** The input that shows the cycle: a number that ends the input. */
  const NumberAtEnd: string := "{{1"

  /** After `{{` has been emitted, with the cursor before the digit. */
  function BeforeDigit(): (c: Cfg)
    ensures Bounded(NumberAtEnd, c) && c.start == c.pos == 2
  {
    Cfg(2, 2, [Token(LEXPR, "{{", Position(1, 1, 0))])
  }

  lemma StartsInText()
    ensures Step(NumberAtEnd, Cfg(0, 0, []), LineWhitespace(Text)) == (Cfg(0, 0, []), Text)
  {
  }

  lemma TextReachesExpr()
    ensures Step(NumberAtEnd, Cfg(0, 0, []), Text) == (BeforeDigit(), Expr)
  {
    DelimiterSpellings();
    assert StartsWith(NumberAtEnd, 0, LEXPR);
    assert NumberAtEnd[0..2] == "{{";
  }

  lemma ExprBeforeDigit()
    ensures Step(NumberAtEnd, BeforeDigit(), Expr) == (BeforeDigit(), RealExpr(Expr))
  {
    DelimiterSpellings();
    NotContinues(NumberAtEnd, 2, "}}");
    NoOperatorAt(NumberAtEnd, 2);
    NoKeywordAt(NumberAtEnd, 2);
  }

  lemma RealExprReadsDigit()
    ensures Step(NumberAtEnd, BeforeDigit(), RealExpr(Expr)) == (BeforeDigit().(pos := 3), Num(Expr))
  {
  }

  /** The as-written lexer reaches lexExpr before the digit, and from
      there lexExpr, lexRealExpr and lexNum bring it back to the same
      place with nothing emitted: it never stops. */
  lemma NumberAtEndCycles()
    ensures Step(NumberAtEnd, Cfg(0, 0, []), LineWhitespace(Text)) == (Cfg(0, 0, []), Text)
    ensures Step(NumberAtEnd, Cfg(0, 0, []), Text) == (BeforeDigit(), Expr)
    ensures Step(NumberAtEnd, BeforeDigit(), Expr) == (BeforeDigit(), RealExpr(Expr))
    ensures Step(NumberAtEnd, BeforeDigit(), RealExpr(Expr)) == (BeforeDigit().(pos := 3), Num(Expr))
    ensures LexNumAsWritten(NumberAtEnd, BeforeDigit().(pos := 3), Expr) == (BeforeDigit(), Expr)
  {
    StartsInText();
    TextReachesExpr();
    ExprBeforeDigit();
    RealExprReadsDigit();
    assert AcceptRun(NumberAtEnd, 3, Digits) == 3;
  }

  /** The state once the corrected lexNum has emitted the digit. */
  function AfterNumber(): (c: Cfg)
    ensures Bounded(NumberAtEnd, c) && c.start == c.pos == 3
  {
    Cfg(3, 3, BeforeDigit().tokens + [Token(INT, "1", Position(1, 3, 2))])
  }

  lemma DigitBecomesInt()
    ensures LexNum(NumberAtEnd, BeforeDigit().(pos := 3), Expr) == (AfterNumber(), Expr)
  {
    assert AcceptRun(NumberAtEnd, 3, Digits) == 3;
    assert NumberAtEnd[2..3] == "1";
    assert PositionAt(NumberAtEnd, 2) == Position(1, 3, 2);
  }

  lemma EndAfterNumber()
    ensures Step(NumberAtEnd, AfterNumber(), Expr) == (AfterNumber(), RealExpr(Expr))
    ensures Step(NumberAtEnd, AfterNumber(), RealExpr(Expr)) == (AfterNumber(), Stop)
  {
    DelimiterSpellings();
    NotContinues(NumberAtEnd, 3, "}}");
    NoOperatorAt(NumberAtEnd, 3);
    NoKeywordAt(NumberAtEnd, 3);
  }

  /** With the corrected accept, the digit becomes an INT token and the
      lexer stops at the end of input. */
  lemma NumberAtEndLexes()
    ensures LexNum(NumberAtEnd, BeforeDigit().(pos := 3), Expr)
      == (Cfg(3, 3, BeforeDigit().tokens + [Token(INT, "1", Position(1, 3, 2))]), Expr)
    ensures TokensOf(NumberAtEnd)
      == [Token(LEXPR, "{{", Position(1, 1, 0)), Token(INT, "1", Position(1, 3, 2))]
  {
    var src := NumberAtEnd;
    var atDigit := BeforeDigit().(pos := 3);
    var done := AfterNumber();
    DigitBecomesInt();
    StartsInText();
    TextReachesExpr();
    ExprBeforeDigit();
    RealExprReadsDigit();
    EndAfterNumber();
    calc {
      LexAll(src);
      LexFrom(src, Cfg(0, 0, []), Text);
      LexFrom(src, BeforeDigit(), Expr);
      LexFrom(src, BeforeDigit(), RealExpr(Expr));
      LexFrom(src, atDigit, Num(Expr));
      LexFrom(src, done, Expr);
      LexFrom(src, done, RealExpr(Expr));
      done;
    }
  }

  /** A number followed by `.` at the end of input: here the source does
      stop, but with other tokens than the corrected lexer. */
  const DotAtEnd: string := "{{1."

  /** After `{{` has been emitted and the digit read. */
  function AfterDigit(): (c: Cfg)
    ensures Bounded(DotAtEnd, c) && c.start == 2 && c.pos == 3
  {
    Cfg(2, 3, [Token(LEXPR, "{{", Position(1, 1, 0))])
  }

  /** As written, the run after the `.` meets the end of input and steps
      back onto the `.`: lexNum emits FLOAT "1" and leaves the `.` for
      lexExpr, which lexes it as PERIOD. The corrected lexNum emits
      FLOAT "1." and reaches the end of input. */
  lemma DotAtEndSplits()
    ensures LexNumAsWritten(DotAtEnd, AfterDigit(), Expr)
      == (Cfg(3, 3, AfterDigit().tokens + [Token(FLOAT, "1", Position(1, 3, 2))]), Expr)
    ensures LexNum(DotAtEnd, AfterDigit(), Expr)
      == (Cfg(4, 4, AfterDigit().tokens + [Token(FLOAT, "1.", Position(1, 3, 2))]), Expr)
  {
    var src := DotAtEnd;
    assert AcceptRun(src, 3, Digits) == 3;
    assert AcceptRun(src, 4, Digits) == 4;
    assert AcceptRunAsWritten(src, 3, Digits) == 3;
    assert AcceptRunAsWritten(src, 4, Digits) == 3;
    assert src[2..3] == "1" && src[2..4] == "1.";
    assert PositionAt(src, 2) == Position(1, 3, 2);
  }

  /** The operator left pending by the as-written lexNum on DotAtEnd is
      lexed as PERIOD by lexExpr. */
  lemma DotAtEndPeriod()
    ensures Step(DotAtEnd, Cfg(3, 3, []), Expr).0.tokens == [Token(PERIOD, ".", Position(1, 4, 3))]
  {
    var src := DotAtEnd;
    DelimiterSpellings();
    TagRunes();
    NotContinues(src, 3, "}}");
    var ops := Operators();
    TryTokensNone(src, 3, ops);
    var k := TryTokens(src, 3, ops);
    assert StartsWith(src, 3, PERIOD) by {
      assert src[3..4] == ".";
    }
    assert ops[(PERIOD - OperatorBeg) as int] == PERIOD;
    PeriodOnlyDot(src, 3, k.value);
    assert PositionAt(src, 3) == Position(1, 4, 3);
    assert src[3..4] == ".";
  }

  /** Only PERIOD is spelled with a `.` first among the operators. */
  lemma PeriodOnlyDot(src: string, p: nat, k: Kind)
    requires p < |src| && src[p] == '.' && OperatorBeg <= k < OperatorEnd && StartsWith(src, p, k)
    ensures k == PERIOD
  {
    var t := TokenString(k);
    assert t != "" && t[0] == '.';
  }

  /** An operator byte that ends the input is never emitted: lexRealExpr
      reads `&` (which starts the operator `&&`) and hands back to
      lexExpr, which meets the end of input and stops with the byte still
      pending. So the tokens do not spell the whole source. */
  const LoneAmpersand: string := "{{&"

  /** After `{{` has been emitted, with the cursor before the `&`. */
  function BeforeAmpersand(): (c: Cfg)
    ensures Bounded(LoneAmpersand, c) && c.start == c.pos == 2
  {
    Cfg(2, 2, [Token(LEXPR, "{{", Position(1, 1, 0))])
  }

  lemma AmpersandOpensTag()
    ensures Step(LoneAmpersand, Cfg(0, 0, []), LineWhitespace(Text)) == (Cfg(0, 0, []), Text)
    ensures Step(LoneAmpersand, Cfg(0, 0, []), Text) == (BeforeAmpersand(), Expr)
  {
    DelimiterSpellings();
    assert StartsWith(LoneAmpersand, 0, LEXPR);
    assert LoneAmpersand[0..2] == "{{";
  }

  lemma AmpersandIsNoOperator()
    ensures Step(LoneAmpersand, BeforeAmpersand(), Expr) == (BeforeAmpersand(), RealExpr(Expr))
  {
    DelimiterSpellings();
    NotContinues(LoneAmpersand, 2, "}}");
    NoOperatorBeforeEnd(LoneAmpersand, 2);
    NoKeywordAt(LoneAmpersand, 2);
  }

  lemma AmpersandRead()
    ensures Step(LoneAmpersand, BeforeAmpersand(), RealExpr(Expr)) == (BeforeAmpersand().(pos := 3), Expr)
  {
  }

  lemma AmpersandPendingAtEnd()
    ensures Step(LoneAmpersand, BeforeAmpersand().(pos := 3), Expr) == (BeforeAmpersand().(pos := 3), RealExpr(Expr))
    ensures Step(LoneAmpersand, BeforeAmpersand().(pos := 3), RealExpr(Expr)) == (BeforeAmpersand().(pos := 3), Stop)
  {
    DelimiterSpellings();
    NotContinues(LoneAmpersand, 3, "}}");
    NoOperatorAt(LoneAmpersand, 3);
    NoKeywordAt(LoneAmpersand, 3);
  }

  lemma LoneAmpersandLost()
    ensures TokensOf(LoneAmpersand) == [Token(LEXPR, "{{", Position(1, 1, 0))]
    ensures LexAll(LoneAmpersand).start == 2 < |LoneAmpersand|
  {
    var src := LoneAmpersand;
    var read := BeforeAmpersand().(pos := 3);
    AmpersandOpensTag();
    AmpersandIsNoOperator();
    AmpersandRead();
    AmpersandPendingAtEnd();
    calc {
      LexAll(src);
      LexFrom(src, Cfg(0, 0, []), Text);
      LexFrom(src, BeforeAmpersand(), Expr);
      LexFrom(src, BeforeAmpersand(), RealExpr(Expr));
      LexFrom(src, read, Expr);
      LexFrom(src, read, RealExpr(Expr));
      read;
    }
  }

  /** No operator is next at the last byte when that byte is `&`: the
      only operator starting with `&` is the two-byte `&&`. */
  lemma NoOperatorBeforeEnd(src: string, p: nat)
    requires p + 1 == |src| && src[p] == '&'
    ensures TryTokens(src, p, Operators()).None?
  {
    var ops := Operators();
    TryTokensNone(src, p, ops);
    forall j | 0 <= j < |ops|
      ensures !StartsWith(src, p, ops[j])
    {
      var t := TokenString(ops[j]);
      if t != "" && t[0] == '&' {
        AmpersandOperatorIsLong(ops[j]);
        assert |src[p..]| < |t|;
      } else {
        NotContinues(src, p, t);
      }
    }
  }

  /** The only operator spelt with a leading `&` is `&&`, two bytes long. */
  lemma AmpersandOperatorIsLong(k: Kind)
    requires OperatorBeg <= k < OperatorEnd && TokenString(k) != "" && TokenString(k)[0] == '&'
    ensures |TokenString(k)| == 2
  {
  }
}
