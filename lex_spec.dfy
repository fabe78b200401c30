/** The lexer's behaviour as functions over a configuration: the bytes
    already emitted end at `start`, the cursor is at `pos`, and `tokens`
    holds what has been emitted (lexer/lexer.go, lexer/states.go).

    Each state function of the Go lexer becomes one function from a
    configuration to the next configuration and the next state; the
    imperative `Lexer` class is proved to compute exactly these. Positions
    are kept as byte offsets here; `PositionAt` gives the line and column
    that the Go code maintains incrementally. */
module LexSpec {
  import opened Strings
  import opened Tokens
  import opened Wrappers

  /** The rune `eof` (0). A NUL byte in the source reads the same. */
  const Eof: char := 0 as char

  const Digits: string := "0123456789"

  // ---------------------------------------------------------------------
  // Positions

  /** The 1-based line and column of offset o, counted the way the
      lexer's `next` counts them: a line feed starts a new line at column
      1, any other byte moves one column to the right. */
  function PositionAt(src: string, o: nat): Position
    requires o <= |src|
  {
    if o == 0 then Position(1, 1, 0)
    else
      var p := PositionAt(src, o - 1);
      if src[o - 1] == '\n' then Position(p.line + 1, 1, o) else Position(p.line, p.column + 1, o)
  }

  /** Reading one byte moves to the next line on a line feed and one
      column to the right otherwise. */
  lemma PositionAfterByte(src: string, o: nat)
    requires o < |src|
    ensures var p := PositionAt(src, o);
      PositionAt(src, o + 1) ==
        if src[o] == '\n' then Position(p.line + 1, 1, o + 1)
        else Position(p.line, p.column + 1, o + 1)
  {
  }

  /** Crossing n bytes without a line feed adds n to the column. */
  lemma {:induction false} PositionAcross(src: string, o: nat, n: nat)
    requires o + n <= |src|
    requires forall j :: o <= j < o + n ==> src[j] != '\n'
    ensures var p := PositionAt(src, o);
      PositionAt(src, o + n) == Position(p.line, p.column + n, o + n)
    decreases n
  {
    if n > 0 {
      PositionAcross(src, o, n - 1);
      PositionAfterByte(src, o + n - 1);
    }
  }

  /** The column of offset o is its distance from the previous line
      feed at i (or from before the beginning, i = -1). */
  lemma {:induction false} ColumnScan(src: string, o: nat, i: int)
    requires -1 <= i < o <= |src|
    requires i == -1 || src[i] == '\n'
    requires forall j :: i < j < o ==> src[j] != '\n'
    ensures PositionAt(src, o).column == o - i
    decreases o
  {
    if o > i + 1 {
      ColumnScan(src, o - 1, i);
    }
  }

  // ---------------------------------------------------------------------
  // Configurations and emitted tokens

  datatype Cfg = Cfg(start: nat, pos: nat, tokens: seq<Token>)

  /** toks cover src[from..to] one after another: each is a non-empty
      slice of the source starting where the previous one ended, carries
      the position of its first byte, and is never of kind EOF. */
  ghost predicate Tiles(src: string, toks: seq<Token>, from: nat, to: nat)
    decreases |toks|
  {
    from <= to <= |src| &&
    if toks == [] then from == to
    else
      var n := |toks[0].val|;
      0 < n && from + n <= to && toks[0].val == src[from..from + n]
      && toks[0].pos == PositionAt(src, from) && toks[0].kind != EOF
      && Tiles(src, toks[1..], from + n, to)
  }

  /** The cursor is within the source and not before the first pending byte. */
  predicate Bounded(src: string, c: Cfg) {
    c.start <= c.pos <= |src|
  }

  /** Bounded, and the emitted tokens tile everything before the pending bytes. */
  ghost predicate Inv(src: string, c: Cfg) {
    Bounded(src, c) && Tiles(src, c.tokens, 0, c.start)
  }

  lemma {:induction false} TilesAppend(src: string, toks: seq<Token>, a: nat, b: nat, c: nat, k: Kind)
    requires Tiles(src, toks, a, b) && b < c <= |src| && k != EOF
    ensures Tiles(src, toks + [Token(k, src[b..c], PositionAt(src, b))], a, c)
    decreases |toks|
  {
    var t := Token(k, src[b..c], PositionAt(src, b));
    if toks == [] {
      assert [t][1..] == [];
    } else {
      assert (toks + [t])[1..] == toks[1..] + [t];
      TilesAppend(src, toks[1..], a + |toks[0].val|, b, c, k);
    }
  }

  function Vals(toks: seq<Token>): (r: seq<string>)
    ensures |r| == |toks| && forall i :: 0 <= i < |toks| ==> r[i] == toks[i].val
  {
    if toks == [] then [] else [toks[0].val] + Vals(toks[1..])
  }

  /** Tiled tokens spell out exactly the bytes they cover. */
  lemma {:induction false} TilesConcat(src: string, toks: seq<Token>, a: nat, b: nat)
    requires Tiles(src, toks, a, b)
    ensures Concat(Vals(toks)) == src[a..b]
    decreases |toks|
  {
    if toks != [] {
      var n := |toks[0].val|;
      TilesConcat(src, toks[1..], a + n, b);
      assert src[a..b] == src[a..a + n] + src[a + n..b];
    }
  }

  /** Every tiled token is non-empty and none is of kind EOF. */
  lemma {:induction false} TilesHaveNoEof(src: string, toks: seq<Token>, a: nat, b: nat)
    requires Tiles(src, toks, a, b)
    ensures forall i :: 0 <= i < |toks| ==> toks[i].kind != EOF && toks[i].val != ""
    decreases |toks|
  {
    if toks != [] {
      TilesHaveNoEof(src, toks[1..], a + |toks[0].val|, b);
      assert forall i :: 1 <= i < |toks| ==> toks[i] == toks[1..][i - 1];
    }
  }

  /** emit: the pending bytes, if any, become one token of kind k. */
  function Emit(src: string, c: Cfg, k: Kind): (r: Cfg)
    requires Bounded(src, c)
    ensures Bounded(src, r) && r.pos == c.pos && r.start == c.pos
    ensures |c.tokens| <= |r.tokens| <= |c.tokens| + 1 && r.tokens[..|c.tokens|] == c.tokens
  {
    if c.start < c.pos then
      Cfg(c.pos, c.pos, c.tokens + [Token(k, src[c.start..c.pos], PositionAt(src, c.start))])
    else c
  }

  /** peek: the byte at p, or eof past the end. */
  function Peek(src: string, p: nat): char {
    if p < |src| then src[p] else Eof
  }

  /** The offset after next: one further unless already at the end. */
  function Advance(src: string, p: nat): nat {
    if p < |src| then p + 1 else p
  }

  /** startsWith: k has a non-empty spelling that the source continues with at p. */
  predicate StartsWith(src: string, p: nat, k: Kind)
    requires p <= |src|
  {
    Continues(src, p, TokenString(k))
  }

  /** The source continues at p with the non-empty spelling s. */
  predicate Continues(src: string, p: nat, s: string)
    requires p <= |src|
  {
    s != "" && HasPrefix(src[p..], s)
  }

  /** lexToken: step over k's spelling and emit everything pending as k. */
  function LexToken(src: string, c: Cfg, k: Kind): (r: Cfg)
    requires Bounded(src, c) && StartsWith(src, c.pos, k)
    ensures Bounded(src, r) && r.pos == c.pos + |TokenString(k)| && r.start == r.pos
  {
    LexSpelled(src, c, k, TokenString(k))
  }

  /** lexToken for a kind whose spelling s is known: step over s and
      emit everything pending as k. */
  function LexSpelled(src: string, c: Cfg, k: Kind, s: string): (r: Cfg)
    requires Bounded(src, c) && Continues(src, c.pos, s)
    ensures Bounded(src, r) && r.pos == c.pos + |s| && r.start == r.pos
  {
    Emit(src, c.(pos := c.pos + |s|), k)
  }

  /** The first kind in ks whose spelling the source continues with at p. */
  function TryTokens(src: string, p: nat, ks: seq<Kind>): (r: Option<Kind>)
    requires p <= |src|
    ensures r.Some? ==> r.value in ks && StartsWith(src, p, r.value)
  {
    if ks == [] then None
    else if StartsWith(src, p, ks[0]) then Some(ks[0])
    else TryTokens(src, p, ks[1..])
  }

  /** tryTokens finds nothing exactly when no kind of ks is next. */
  lemma {:induction false} TryTokensNone(src: string, p: nat, ks: seq<Kind>)
    requires p <= |src|
    ensures TryTokens(src, p, ks).None? <==> forall j :: 0 <= j < |ks| ==> !StartsWith(src, p, ks[j])
  {
    if ks != [] {
      TryTokensNone(src, p, ks[1..]);
      assert forall j :: 0 < j < |ks| ==> ks[1..][j - 1] == ks[j];
    }
  }

  /** What tryTokens finds is the first kind of ks that is next (kinds
      listed once each, as the operator and keyword ranges are). */
  lemma {:induction false} TryTokensFirst(src: string, p: nat, ks: seq<Kind>, i: nat)
    requires p <= |src| && i < |ks|
    requires forall m, n :: 0 <= m < n < |ks| ==> ks[m] != ks[n]
    requires TryTokens(src, p, ks) == Some(ks[i])
    ensures forall j :: 0 <= j < i ==> !StartsWith(src, p, ks[j])
  {
    if i > 0 {
      assert ks[1..][i - 1] == ks[i];
      TryTokensFirst(src, p, ks[1..], i - 1);
      assert forall j :: 0 < j < i ==> ks[1..][j - 1] == ks[j];
    }
  }

  function Operators(): seq<Kind> { KindRange(OperatorBeg, OperatorEnd) }
  function Keywords(): seq<Kind> { KindRange(KeywordBeg, KeywordEnd) }

  /** A keyword spelling at p counts only when followed by the end of
      input, a space byte, or the start of an operator. */
  predicate KeywordFits(src: string, p: nat, k: Kind)
    requires p <= |src|
  {
    FitsAsKeyword(src, p, TokenString(k))
  }

  /** The spelling s is next at p and is followed by the end of input, a
      space byte or the start of an operator. */
  predicate FitsAsKeyword(src: string, p: nat, s: string)
    requires p <= |src|
  {
    Continues(src, p, s) &&
    var e := p + |s|;
    |src| < e + 1 || IsSpace(src[e]) || TryTokens(src, e, Operators()).Some?
  }

  /** tryKeywords: the first keyword in ks that fits at p. */
  function TryKeywords(src: string, p: nat, ks: seq<Kind>): (r: Option<Kind>)
    requires p <= |src|
    ensures r.Some? ==> r.value in ks && KeywordFits(src, p, r.value)
  {
    if ks == [] then None
    else if KeywordFits(src, p, ks[0]) then Some(ks[0])
    else TryKeywords(src, p, ks[1..])
  }

  /** tryKeywords finds nothing exactly when no keyword of ks fits. */
  lemma {:induction false} TryKeywordsNone(src: string, p: nat, ks: seq<Kind>)
    requires p <= |src|
    ensures TryKeywords(src, p, ks).None? <==> forall j :: 0 <= j < |ks| ==> !KeywordFits(src, p, ks[j])
  {
    if ks != [] {
      TryKeywordsNone(src, p, ks[1..]);
      assert forall j :: 0 < j < |ks| ==> ks[1..][j - 1] == ks[j];
    }
  }

  /** A spelling is not next at the end of input, nor where its first
      byte differs from the byte at p. */
  lemma NotContinues(src: string, p: nat, s: string)
    requires p <= |src| && (s == "" || p == |src| || s[0] != src[p])
    ensures !Continues(src, p, s)
  {
  }

  /** No operator is next at the end of input or at a byte that starts
      no operator spelling. */
  lemma NoOperatorAt(src: string, p: nat)
    requires p <= |src| && (p == |src| || src[p] !in OperatorStartChars)
    ensures TryTokens(src, p, Operators()).None?
  {
    var ops := Operators();
    TryTokensNone(src, p, ops);
    forall j | 0 <= j < |ops|
      ensures !StartsWith(src, p, ops[j])
    {
      var k := ops[j];
      if k == OperatorBeg {
        assert TokenString(k) == "";
      } else if TokenString(k) != "" {
        OperatorFirstChar(k);
      }
      NotContinues(src, p, TokenString(k));
    }
  }

  /** No keyword fits at the end of input or at a byte that is not a
      lower-case letter. */
  lemma NoKeywordAt(src: string, p: nat)
    requires p <= |src| && (p == |src| || !IsLower(src[p]))
    ensures TryKeywords(src, p, Keywords()).None?
  {
    var kws := Keywords();
    TryKeywordsNone(src, p, kws);
    forall j | 0 <= j < |kws|
      ensures !KeywordFits(src, p, kws[j])
    {
      var k := kws[j];
      if k == KeywordBeg {
        assert TokenString(k) == "";
      } else {
        KeywordSpellingShape(k);
      }
      NotContinues(src, p, TokenString(k));
    }
  }

  /** accept: consume the byte at p if it is one of `valid`. At the end
      of input nothing is consumed and nothing is stepped back (this is
      the corrected form; see AcceptAsWritten). */
  function Accept(src: string, p: nat, valid: string): (r: (bool, nat))
    requires p <= |src|
    ensures r.0 <==> p < |src| && src[p] in valid
    ensures r.1 == if r.0 then p + 1 else p
  {
    if p < |src| && src[p] in valid then (true, p + 1) else (false, p)
  }

  /** acceptRun: the longest run of bytes from `valid` starting at p. */
  function AcceptRun(src: string, p: nat, valid: string): (r: nat)
    requires p <= |src|
    ensures p <= r <= |src|
    ensures forall j :: p <= j < r ==> src[j] in valid
    ensures r == |src| || src[r] !in valid
    decreases |src| - p
  {
    var a := Accept(src, p, valid);
    if a.0 then AcceptRun(src, a.1, valid) else a.1
  }

  // ---------------------------------------------------------------------
  // States

  /** The state functions. RealExpr, Num, Ident and LineWhitespace are the
      closures that remember the state to return to. */
  datatype State =
    | Stop
    | Text
    | Expr
    | Stmt
    | Comm
    | SQString
    | DQString
    | RealExpr(next: State)
    | Num(next: State)
    | Ident(next: State)
    | LineWhitespace(next: State)

  /** A state's rank: a step that does not advance the cursor always
      moves to a state of smaller rank. */
  function Rank(st: State): nat {
    match st
    case Stop => 0
    case Text => 1
    case Comm => 1
    case SQString => 2
    case DQString => 2
    case RealExpr(_) => 2
    case Expr => 3
    case Stmt => 3
    case Num(n) => Rank(n) + 1
    case Ident(n) => Rank(n) + 1
    case LineWhitespace(n) => (if Rank(n) > 1 then Rank(n) else 1) + 1
  }

  /** A delimiter lexText looks for: its kind, its spelling and the
      state it leads to. */
  datatype Delimiter = Delimiter(kind: Kind, spelling: string, next: State)

  /** The delimiters lexText looks for, in the order it tries them. */
  function TextDelimiters(): seq<Delimiter> {
    [Delimiter(LEXPR, "{{", Expr), Delimiter(RARR, "->", Comm), Delimiter(LSTMT, "{%", Stmt),
     Delimiter(LCOMM, "{#", Comm), Delimiter(REXPR, "}}", Text),
     Delimiter(RCOMM, "#}", LineWhitespace(Text)), Delimiter(RSTMT, "%}", LineWhitespace(Text))]
  }

  /** Each delimiter's spelling is its kind's spelling, without a line feed. */
  lemma TextDelimitersSpelled()
    ensures forall d :: d in TextDelimiters() ==> d.spelling == TokenString(d.kind) && '\n' !in d.spelling
  {
    DelimiterSpellings();
  }

  /** The first delimiter of ds the source continues with at p. */
  function TextDelimiter(src: string, p: nat, ds: seq<Delimiter>): (r: Option<Delimiter>)
    requires p <= |src|
    ensures r.Some? ==> r.value in ds && Continues(src, p, r.value.spelling)
  {
    if ds == [] then None
    else if Continues(src, p, ds[0].spelling) then Some(ds[0])
    else TextDelimiter(src, p, ds[1..])
  }

  /** Where lexText stops at the cursor: the end of input, a line feed,
      or a delimiter; None when the byte there is plain text. */
  function TextEnd(src: string, c: Cfg): (r: Option<(Cfg, State)>)
    requires Bounded(src, c)
    ensures r.Some? ==> Bounded(src, r.value.0) && (r.value.0.pos > c.pos || r.value.1 == Stop)
    ensures r.None? ==> c.pos < |src|
  {
    var ch := Peek(src, c.pos);
    if ch == Eof then Some((Emit(src, c, TEXT), Stop))
    else if ch == '\n' then
      var c1 := Emit(src, c, TEXT);
      Some((Emit(src, c1.(pos := c1.pos + 1), LNBR), LineWhitespace(Text)))
    else match TextDelimiter(src, c.pos, TextDelimiters())
      case Some(d) => Some((LexSpelled(src, Emit(src, c, TEXT), d.kind, d.spelling), d.next))
      case None => None
  }

  /** lexText: copy bytes until end of input, a line feed, or a delimiter. */
  function LexText(src: string, c: Cfg): (r: (Cfg, State))
    requires Bounded(src, c)
    ensures Bounded(src, r.0)
    ensures r.0.pos > c.pos || (r.0.pos == c.pos && r.1 == Stop)
    decreases |src| - c.pos
  {
    match TextEnd(src, c)
    case Some(r) => r
    case None => LexText(src, c.(pos := c.pos + 1))
  }

  /** lexText moves past a byte of plain text and carries on. */
  lemma LexTextSkips(src: string, c: Cfg)
    requires Bounded(src, c) && TextEnd(src, c).None?
    ensures LexText(src, c) == LexText(src, c.(pos := c.pos + 1))
  {
  }

  /** lexRealExpr(next): classify one byte inside a tag. A byte that
      starts nothing (an operator start that no operator matched) is
      skipped without emitting, so it becomes part of the next token. */
  function LexRealExpr(src: string, c: Cfg, next: State): (r: (Cfg, State))
    requires Bounded(src, c)
    ensures Bounded(src, r.0)
    ensures r.0.pos > c.pos || (r.0.pos == c.pos && (r.1 == Stop || r.1 == Text))
  {
    var ch := Peek(src, c.pos);
    var p := Advance(src, c.pos);
    if ch == Eof then (c.(pos := p), Stop)
    else if ch == '\n' || ch == '\r' then (c, Text)
    else if IsSpace(ch) then (c.(pos := p), LineWhitespace(next))
    else if ch == '\'' then (c.(pos := p), SQString)
    else if ch == '"' then (c.(pos := p), DQString)
    else ByteInTag(src, c, next)
  }

  /** The rest of lexRealExpr, for a byte that is not eof, a space byte
      or a quote: a parenthesis token, the start of a number or of an
      identifier, or an operator byte that is skipped. The runes of
      LPAREN, RPAREN and PERIOD are written out (TagRunes). */
  function ByteInTag(src: string, c: Cfg, next: State): (r: (Cfg, State))
    requires Bounded(src, c) && c.pos < |src|
    ensures Bounded(src, r.0) && r.0.pos > c.pos
  {
    var ch := src[c.pos];
    if ch == '(' then (LexSpelled(src, c, LPAREN, "("), next)
    else if ch == ')' then (LexSpelled(src, c, RPAREN, ")"), next)
    else if IsDigit(ch) then (c.(pos := c.pos + 1), Num(next))
    else if ch !in OperatorStartChars && ch != '.' then (c.(pos := c.pos + 1), Ident(next))
    else (c.(pos := c.pos + 1), next)
  }

  /** lexExpr: the closing `}}`, then any operator, then any keyword,
      otherwise one byte by lexRealExpr. */
  function LexExpr(src: string, c: Cfg): (r: (Cfg, State))
    requires Bounded(src, c)
    ensures Bounded(src, r.0)
    ensures r.0.pos > c.pos || (r.0.pos == c.pos && r.1 == RealExpr(Expr))
  {
    if Continues(src, c.pos, "}}") then (LexSpelled(src, c, REXPR, "}}"), Text)
    else match TryTokens(src, c.pos, Operators())
      case Some(k) => (LexToken(src, c, k), Expr)
      case None =>
        match TryKeywords(src, c.pos, Keywords())
        case Some(k) => (LexToken(src, c, k), Expr)
        case None => (c, RealExpr(Expr))
  }

  /** lexStmt: as lexExpr, closed by `%}`. */
  function LexStmt(src: string, c: Cfg): (r: (Cfg, State))
    requires Bounded(src, c)
    ensures Bounded(src, r.0)
    ensures r.0.pos > c.pos || (r.0.pos == c.pos && r.1 == RealExpr(Stmt))
  {
    if Continues(src, c.pos, "%}") then (LexSpelled(src, c, RSTMT, "%}"), LineWhitespace(Text))
    else match TryTokens(src, c.pos, Operators())
      case Some(k) => (LexToken(src, c, k), Stmt)
      case None =>
        match TryKeywords(src, c.pos, Keywords())
        case Some(k) => (LexToken(src, c, k), Stmt)
        case None => (c, RealExpr(Stmt))
  }

  /** Where lexComm stops at the cursor: at `#}`, or after reading eof
      (the end of input, or a NUL byte, which reads the same); None when
      the byte there is comment text. */
  function CommEnd(src: string, c: Cfg): (r: Option<(Cfg, State)>)
    requires Bounded(src, c)
    ensures r.Some? ==> Bounded(src, r.value.0) && (r.value.0.pos > c.pos || r.value.1 == Stop)
    ensures r.None? ==> c.pos < |src|
  {
    if Continues(src, c.pos, "#}") then
      Some((LexSpelled(src, Emit(src, c, COMM_TEXT), RCOMM, "#}"), LineWhitespace(Text)))
    else if Peek(src, c.pos) == Eof then
      Some((Emit(src, c.(pos := Advance(src, c.pos)), COMM_TEXT), Stop))
    else None
  }

  /** lexComm: everything up to `#}` or the end of input is comment text. */
  function LexComm(src: string, c: Cfg): (r: (Cfg, State))
    requires Bounded(src, c)
    ensures Bounded(src, r.0)
    ensures r.0.pos > c.pos || (r.0.pos == c.pos && r.1 == Stop)
    decreases |src| - c.pos
  {
    match CommEnd(src, c)
    case Some(r) => r
    case None => LexComm(src, c.(pos := c.pos + 1))
  }

  /** lexComm moves past a byte of comment text and carries on. */
  lemma LexCommSkips(src: string, c: Cfg)
    requires Bounded(src, c) && CommEnd(src, c).None?
    ensures LexComm(src, c) == LexComm(src, c.(pos := c.pos + 1))
  {
  }

  /** lexNum(next): digits, then optionally `.` and digits. */
  function LexNum(src: string, c: Cfg, next: State): (r: (Cfg, State))
    requires Bounded(src, c)
    ensures Bounded(src, r.0)
    ensures r.0.pos >= c.pos && r.1 == next
  {
    var p1 := AcceptRun(src, c.pos, Digits);
    var dot := Accept(src, p1, ".");
    if dot.0 then (Emit(src, c.(pos := AcceptRun(src, dot.1, Digits)), FLOAT), next)
    else (Emit(src, c.(pos := dot.1), INT), next)
  }

  /** lexSQString and lexDQString: up to the closing quote, which is
      part of the STR token; a line feed (left in place) or the end of
      input gives NOT_TERMINATED_STR and returns to text. */
  function LexQuoted(src: string, c: Cfg, quote: char): (r: (Cfg, State))
    requires Bounded(src, c)
    ensures Bounded(src, r.0)
    ensures r.0.pos > c.pos || (r.0.pos == c.pos && r.1 == Text)
    decreases |src| - c.pos
  {
    var ch := Peek(src, c.pos);
    var p := Advance(src, c.pos);
    if ch == Eof then (Emit(src, c.(pos := p), NOT_TERMINATED_STR), Text)
    else if ch == '\n' then (Emit(src, c, NOT_TERMINATED_STR), Text)
    else if ch == quote then (Emit(src, c.(pos := p), STR), Expr)
    else LexQuoted(src, c.(pos := p), quote)
  }

  /** lexIdent(next): up to an operator start or a space byte. */
  function LexIdent(src: string, c: Cfg, next: State): (r: (Cfg, State))
    requires Bounded(src, c)
    ensures Bounded(src, r.0)
    ensures r.0.pos > c.pos || (r.0.pos == c.pos && (r.1 == Stop || r.1 == next))
    decreases |src| - c.pos
  {
    var ch := Peek(src, c.pos);
    var p := Advance(src, c.pos);
    if ch == Eof then (Emit(src, c.(pos := p), IDENT), Stop)
    else if ch in OperatorStartChars || IsSpace(ch) then (Emit(src, c, IDENT), next)
    else LexIdent(src, c.(pos := p), next)
  }

  /** lexLineWhitespace(next): a run of spaces and tabs becomes one WS
      token; another space byte (a line feed, say) goes back to text. */
  function LexLineWhitespace(src: string, c: Cfg, next: State): (r: (Cfg, State))
    requires Bounded(src, c)
    ensures Bounded(src, r.0)
    ensures r.0.pos > c.pos || (r.0.pos == c.pos && (r.1 == Text || r.1 == next))
    decreases |src| - c.pos
  {
    var ch := Peek(src, c.pos);
    if ch == ' ' || ch == '\t' then LexLineWhitespace(src, c.(pos := c.pos + 1), next)
    else if IsSpace(ch) then (Emit(src, c, WS), Text)
    else (Emit(src, c, WS), next)
  }

  /** One state function applied. Every step keeps the emitted tokens
      tiling the source and either advances the cursor or lowers the
      rank, so the lexer always reaches Stop. */
  function Step(src: string, c: Cfg, st: State): (r: (Cfg, State))
    requires Bounded(src, c) && st != Stop
    ensures Bounded(src, r.0)
    ensures r.0.pos > c.pos || (r.0.pos == c.pos && Rank(r.1) < Rank(st))
  {
    match st
    case Text => LexText(src, c)
    case Expr => LexExpr(src, c)
    case Stmt => LexStmt(src, c)
    case Comm => LexComm(src, c)
    case SQString => LexQuoted(src, c, '\'')
    case DQString => LexQuoted(src, c, '"')
    case RealExpr(n) => LexRealExpr(src, c, n)
    case Num(n) => LexNum(src, c, n)
    case Ident(n) => LexIdent(src, c, n)
    case LineWhitespace(n) => LexLineWhitespace(src, c, n)
  }

  /** run: apply state functions until Stop. */
  function LexFrom(src: string, c: Cfg, st: State): (r: Cfg)
    requires Bounded(src, c)
    ensures Bounded(src, r)
    decreases |src| - c.pos, Rank(st)
  {
    if st == Stop then c
    else
      var (c1, st1) := Step(src, c, st);
      LexFrom(src, c1, st1)
  }

  /** Lexing starts in line-whitespace mode in front of text. */
  function LexAll(src: string): (r: Cfg)
    ensures Bounded(src, r)
  {
    LexFrom(src, Cfg(0, 0, []), LineWhitespace(Text))
  }

  /** TokensFromBytes. */
  function TokensOf(src: string): (r: seq<Token>)
    ensures forall i :: 0 <= i < |r| ==> r[i].kind != EOF && r[i].val != ""
  {
    LexFromTiles(src, Cfg(0, 0, []), LineWhitespace(Text));
    TilesHaveNoEof(src, LexAll(src).tokens, 0, LexAll(src).start);
    LexAll(src).tokens
  }

  // ---------------------------------------------------------------------
  // Every state function keeps the emitted tokens tiling the source

  lemma EmitTiles(src: string, c: Cfg, k: Kind)
    requires Inv(src, c) && k != EOF
    ensures Inv(src, Emit(src, c, k))
  {
    if c.start < c.pos {
      TilesAppend(src, c.tokens, 0, c.start, c.pos, k);
    }
  }

  lemma LexTokenTiles(src: string, c: Cfg, k: Kind)
    requires Inv(src, c) && StartsWith(src, c.pos, k) && k != EOF
    ensures Inv(src, LexToken(src, c, k))
  {
    LexSpelledTiles(src, c, k, TokenString(k));
  }

  lemma LexSpelledTiles(src: string, c: Cfg, k: Kind, s: string)
    requires Inv(src, c) && Continues(src, c.pos, s) && k != EOF
    ensures Inv(src, LexSpelled(src, c, k, s))
  {
    EmitTiles(src, c.(pos := c.pos + |s|), k);
  }

  /** Operators and keywords are never EOF. */
  lemma RangesAreNotEof(k: Kind)
    requires k in Operators() || k in Keywords()
    ensures k != EOF
  {
  }

  lemma {:induction false} TextTiles(src: string, c: Cfg)
    requires Inv(src, c)
    ensures Inv(src, LexText(src, c).0)
    decreases |src| - c.pos
  {
    var ch := Peek(src, c.pos);
    if ch == Eof {
      EmitTiles(src, c, TEXT);
    } else if ch == '\n' {
      EmitTiles(src, c, TEXT);
      var c1 := Emit(src, c, TEXT);
      EmitTiles(src, c1.(pos := c1.pos + 1), LNBR);
    } else {
      match TextDelimiter(src, c.pos, TextDelimiters())
      case Some(d) =>
        EmitTiles(src, c, TEXT);
        LexSpelledTiles(src, Emit(src, c, TEXT), d.kind, d.spelling);
      case None =>
        TextTiles(src, c.(pos := c.pos + 1));
    }
  }

  lemma RealExprTiles(src: string, c: Cfg, next: State)
    requires Inv(src, c)
    ensures Inv(src, LexRealExpr(src, c, next).0)
  {
    var ch := Peek(src, c.pos);
    if ch != Eof && ch != '\n' && ch != '\r' && !IsSpace(ch) && ch != '\'' && ch != '"' {
      if ch == '(' {
        LexSpelledTiles(src, c, LPAREN, "(");
      } else if ch == ')' {
        LexSpelledTiles(src, c, RPAREN, ")");
      }
    }
  }

  lemma ExprTiles(src: string, c: Cfg)
    requires Inv(src, c)
    ensures Inv(src, LexExpr(src, c).0)
  {
    if Continues(src, c.pos, "}}") {
      LexSpelledTiles(src, c, REXPR, "}}");
    } else {
      match TryTokens(src, c.pos, Operators())
      case Some(k) =>
        RangesAreNotEof(k);
        LexTokenTiles(src, c, k);
      case None =>
        match TryKeywords(src, c.pos, Keywords())
        case Some(k) =>
          RangesAreNotEof(k);
          LexTokenTiles(src, c, k);
        case None =>
    }
  }

  lemma StmtTiles(src: string, c: Cfg)
    requires Inv(src, c)
    ensures Inv(src, LexStmt(src, c).0)
  {
    if Continues(src, c.pos, "%}") {
      LexSpelledTiles(src, c, RSTMT, "%}");
    } else {
      match TryTokens(src, c.pos, Operators())
      case Some(k) =>
        RangesAreNotEof(k);
        LexTokenTiles(src, c, k);
      case None =>
        match TryKeywords(src, c.pos, Keywords())
        case Some(k) =>
          RangesAreNotEof(k);
          LexTokenTiles(src, c, k);
        case None =>
    }
  }

  lemma {:induction false} CommTiles(src: string, c: Cfg)
    requires Inv(src, c)
    ensures Inv(src, LexComm(src, c).0)
    decreases |src| - c.pos
  {
    if Continues(src, c.pos, "#}") {
      EmitTiles(src, c, COMM_TEXT);
      LexSpelledTiles(src, Emit(src, c, COMM_TEXT), RCOMM, "#}");
    } else if Peek(src, c.pos) == Eof {
      EmitTiles(src, c.(pos := Advance(src, c.pos)), COMM_TEXT);
    } else {
      CommTiles(src, c.(pos := c.pos + 1));
    }
  }

  lemma NumTiles(src: string, c: Cfg, next: State)
    requires Inv(src, c)
    ensures Inv(src, LexNum(src, c, next).0)
  {
    var p1 := AcceptRun(src, c.pos, Digits);
    var dot := Accept(src, p1, ".");
    if dot.0 {
      EmitTiles(src, c.(pos := AcceptRun(src, dot.1, Digits)), FLOAT);
    } else {
      EmitTiles(src, c.(pos := dot.1), INT);
    }
  }

  lemma {:induction false} QuotedTiles(src: string, c: Cfg, quote: char)
    requires Inv(src, c)
    ensures Inv(src, LexQuoted(src, c, quote).0)
    decreases |src| - c.pos
  {
    var ch := Peek(src, c.pos);
    var p := Advance(src, c.pos);
    if ch == Eof {
      EmitTiles(src, c.(pos := p), NOT_TERMINATED_STR);
    } else if ch == '\n' {
      EmitTiles(src, c, NOT_TERMINATED_STR);
    } else if ch == quote {
      EmitTiles(src, c.(pos := p), STR);
    } else {
      QuotedTiles(src, c.(pos := p), quote);
    }
  }

  lemma {:induction false} IdentTiles(src: string, c: Cfg, next: State)
    requires Inv(src, c)
    ensures Inv(src, LexIdent(src, c, next).0)
    decreases |src| - c.pos
  {
    var ch := Peek(src, c.pos);
    var p := Advance(src, c.pos);
    if ch == Eof {
      EmitTiles(src, c.(pos := p), IDENT);
    } else if ch in OperatorStartChars || IsSpace(ch) {
      EmitTiles(src, c, IDENT);
    } else {
      IdentTiles(src, c.(pos := p), next);
    }
  }

  lemma {:induction false} LineWhitespaceTiles(src: string, c: Cfg, next: State)
    requires Inv(src, c)
    ensures Inv(src, LexLineWhitespace(src, c, next).0)
    decreases |src| - c.pos
  {
    var ch := Peek(src, c.pos);
    if ch == ' ' || ch == '\t' {
      LineWhitespaceTiles(src, c.(pos := c.pos + 1), next);
    } else {
      EmitTiles(src, c, WS);
    }
  }

  lemma StepTiles(src: string, c: Cfg, st: State)
    requires Inv(src, c) && st != Stop
    ensures Inv(src, Step(src, c, st).0)
  {
    match st
    case Text => TextTiles(src, c);
    case Expr => ExprTiles(src, c);
    case Stmt => StmtTiles(src, c);
    case Comm => CommTiles(src, c);
    case SQString => QuotedTiles(src, c, '\'');
    case DQString => QuotedTiles(src, c, '"');
    case RealExpr(n) => RealExprTiles(src, c, n);
    case Num(n) => NumTiles(src, c, n);
    case Ident(n) => IdentTiles(src, c, n);
    case LineWhitespace(n) => LineWhitespaceTiles(src, c, n);
  }

  lemma {:induction false} LexFromTiles(src: string, c: Cfg, st: State)
    requires Inv(src, c)
    ensures Inv(src, LexFrom(src, c, st))
    decreases |src| - c.pos, Rank(st)
  {
    if st != Stop {
      StepTiles(src, c, st);
      var (c1, st1) := Step(src, c, st);
      LexFromTiles(src, c1, st1);
    }
  }

  /** Token t is a non-empty slice of the source at offset o, ending at
      or before b, carries the position of o and is not of kind EOF. */
  ghost predicate PlacedAt(src: string, t: Token, o: nat, b: nat) {
    t.val != "" && t.kind != EOF && o + |t.val| <= b <= |src|
    && t.val == src[o..o + |t.val|] && t.pos == PositionAt(src, o)
  }

  /** Where the token at index i of tiled tokens starts: right after the
      tokens before it. */
  lemma {:induction false} TilesPositions(src: string, toks: seq<Token>, a: nat, b: nat)
    requires Tiles(src, toks, a, b)
    ensures forall i :: 0 <= i < |toks| ==> PlacedAt(src, toks[i], a + |Concat(Vals(toks[..i]))|, b)
    decreases |toks|
  {
    if toks != [] {
      var n := |toks[0].val|;
      TilesPositions(src, toks[1..], a + n, b);
      assert toks[..0] == [];
      forall i | 1 <= i < |toks|
        ensures a + |Concat(Vals(toks[..i]))| == a + n + |Concat(Vals(toks[1..][..i - 1]))|
      {
        ValsPrefixTail(toks, i);
      }
    }
  }

  /** The offset before token i counts token 0 and then the offset before
      token i - 1 of the rest. */
  lemma ValsPrefixTail(toks: seq<Token>, i: nat)
    requires 1 <= i <= |toks|
    ensures |Concat(Vals(toks[..i]))| == |toks[0].val| + |Concat(Vals(toks[1..][..i - 1]))|
  {
    assert toks[..i][1..] == toks[1..][..i - 1];
  }

  /** The lexer's tokens, concatenated, are the source up to where lexing
      stopped emitting. */
  lemma TokensSpellSource(src: string)
    ensures Concat(Vals(TokensOf(src))) == src[..LexAll(src).start]
  {
    LexFromTiles(src, Cfg(0, 0, []), LineWhitespace(Text));
    TilesConcat(src, TokensOf(src), 0, LexAll(src).start);
  }

  /** Each token is a non-empty slice of the source that starts where the
      previous one ended, carries the line and column of its first byte,
      and is never of kind EOF. */
  lemma TokensArePlaced(src: string)
    ensures var toks := TokensOf(src);
      forall i :: 0 <= i < |toks| ==> PlacedAt(src, toks[i], |Concat(Vals(toks[..i]))|, LexAll(src).start)
  {
    LexFromTiles(src, Cfg(0, 0, []), LineWhitespace(Text));
    TilesPositions(src, TokensOf(src), 0, LexAll(src).start);
  }
}
