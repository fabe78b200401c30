/** The lexer object (lexer/lexer.go, lexer/states.go, lexer/interface.go):
    a cursor over the source bytes that keeps its line and column up to
    date, a start position marking the first byte not yet emitted, and
    the emitted tokens. The goroutine and channel hand-off is replaced by
    a sequence the lexer appends to. Every method is proved to do what the
    corresponding LexSpec function says. */
module Lexer {
  import opened Strings
  import opened Tokens
  import opened Wrappers
  import opened LexSpec

  class Lexer {
    const source: string
    var startPos: Position
    var pos: Position
    var tokens: seq<Token>

    /** Both positions are in range, and their line and column agree
        with the bytes before their offset. */
    ghost predicate Located()
      reads this
    {
      0 <= startPos.offset <= |source| && 0 <= pos.offset <= |source|
      && startPos == PositionAt(source, startPos.offset)
      && pos == PositionAt(source, pos.offset)
    }

    function Config(): Cfg
      reads this
      requires 0 <= startPos.offset && 0 <= pos.offset
    {
      Cfg(startPos.offset, pos.offset, tokens)
    }

    ghost predicate Valid()
      reads this
    {
      Located() && Bounded(source, Config())
    }

    /** newLexer: both positions at line 1, column 1, offset 0. */
    constructor (input: string)
      ensures source == input && Valid() && Config() == Cfg(0, 0, [])
      ensures pos == Position(1, 1, 0)
    {
      source := input;
      startPos := Position(1, 1, 0);
      pos := Position(1, 1, 0);
      tokens := [];
    }

    /** next: the byte under the cursor, or eof without moving at the end. */
    method Next() returns (r: char)
      requires Located()
      modifies this
      ensures Located()
      ensures r == LexSpec.Peek(source, old(pos.offset))
      ensures pos.offset == Advance(source, old(pos.offset))
      ensures startPos == old(startPos) && tokens == old(tokens)
    {
      if pos.offset >= |source| {
        return Eof;
      }
      r := source[pos.offset];
      PositionAfterByte(source, pos.offset);
      pos := pos.(offset := pos.offset + 1);
      if r == '\n' {
        pos := pos.(line := pos.line + 1, column := 1);
      } else {
        pos := pos.(column := pos.column + 1);
      }
    }

    /** back: one byte back, recounting the column when that byte is a
        line feed; nothing at offset 0. */
    method Back()
      requires Located()
      modifies this
      ensures Located()
      ensures pos.offset == if old(pos.offset) > 0 then old(pos.offset) - 1 else old(pos.offset)
      ensures startPos == old(startPos) && tokens == old(tokens)
    {
      if pos.offset <= 0 {
        return;
      }
      var offset := pos.offset - 1;
      PositionAfterByte(source, offset);
      if source[offset] == '\n' {
        var column := 1;
        var i := offset - 1;
        while i >= 0 && source[i] != '\n'
          invariant -1 <= i < offset
          invariant column == offset - i
          invariant forall j :: i < j < offset ==> source[j] != '\n'
          decreases i
        {
          column := column + 1;
          i := i - 1;
        }
        ColumnScan(source, offset, i);
        pos := Position(pos.line - 1, column, offset);
      } else {
        pos := Position(pos.line, pos.column - 1, offset);
      }
    }

    /** peek: the byte under the cursor without moving. */
    method Peek() returns (r: char)
      requires Located()
      ensures r == LexSpec.Peek(source, pos.offset)
    {
      if pos.offset < |source| {
        r := source[pos.offset];
        return;
      }
      return Eof;
    }

    /** accept, with the end-of-input guard that keeps `back` from
        undoing a `next` that did not move. */
    method Accept(valid: string) returns (ok: bool)
      requires Valid()
      modifies this
      ensures Valid() && startPos == old(startPos) && tokens == old(tokens)
      ensures (ok, pos.offset) == LexSpec.Accept(source, old(pos.offset), valid)
    {
      if pos.offset >= |source| {
        return false;
      }
      var r := Next();
      for i := 0 to |valid|
        invariant forall j :: 0 <= j < i ==> valid[j] != r
      {
        if valid[i] == r {
          return true;
        }
      }
      Back();
      return false;
    }

    /** acceptRun: accept for as long as it succeeds. */
    method AcceptRun(valid: string)
      requires Valid()
      modifies this
      ensures Valid() && startPos == old(startPos) && tokens == old(tokens)
      ensures pos.offset == LexSpec.AcceptRun(source, old(pos.offset), valid)
    {
      var more := Accept(valid);
      while more
        invariant Valid() && startPos == old(startPos) && tokens == old(tokens)
        invariant more ==> (pos.offset > 0
          && LexSpec.AcceptRun(source, pos.offset - 1, valid) == LexSpec.AcceptRun(source, old(pos.offset), valid)
          && pos.offset - 1 < |source| && source[pos.offset - 1] in valid)
        invariant !more ==> pos.offset == LexSpec.AcceptRun(source, old(pos.offset), valid)
        decreases |source| - pos.offset, more
      {
        more := Accept(valid);
      }
    }

    /** emit: the pending bytes, if any, become a token of kind k. */
    method Emit(k: Kind)
      requires Valid()
      modifies this
      ensures Valid() && Config() == LexSpec.Emit(source, old(Config()), k)
    {
      if startPos.offset < pos.offset {
        tokens := tokens + [Token(k, source[startPos.offset..pos.offset], startPos)];
        startPos := pos;
      }
    }

    /** lexToken: step over k's spelling and emit the pending bytes as k. */
    method LexToken(k: Kind, next: State) returns (st: State)
      requires Valid() && LexSpec.StartsWith(source, pos.offset, k)
      modifies this
      ensures Valid() && Config() == LexSpec.LexToken(source, old(Config()), k) && st == next
    {
      var tok := TokenString(k);
      SpellingHasNoLineBreak(k);
      st := LexSpelled(k, tok, next);
    }

    /** lexToken with k's spelling s at hand; s holds no line feed, so
        the cursor stays on its line. */
    method LexSpelled(k: Kind, s: string, next: State) returns (st: State)
      requires Valid() && LexSpec.Continues(source, pos.offset, s) && '\n' !in s
      modifies this
      ensures Valid() && Config() == LexSpec.LexSpelled(source, old(Config()), k, s) && st == next
    {
      var n := |s|;
      assert forall j :: pos.offset <= j < pos.offset + n ==> source[j] == s[j - pos.offset];
      PositionAcross(source, pos.offset, n);
      pos := pos.(offset := pos.offset + n, column := pos.column + n);
      Emit(k);
      return next;
    }

    /** startsWith for a spelling at hand. */
    method Continues(s: string) returns (b: bool)
      requires 0 <= pos.offset <= |source|
      ensures b == LexSpec.Continues(source, pos.offset, s)
    {
      b := |s| > 0 && HasPrefix(source[pos.offset..], s);
    }

    method StartsWith(k: Kind) returns (b: bool)
      requires Located()
      ensures b == LexSpec.StartsWith(source, pos.offset, k)
    {
      var tok := TokenString(k);
      b := |tok| > 0 && HasPrefix(source[pos.offset..], tok);
    }

    /** tryTokens: lex the first of ks the source continues with. */
    method TryTokens(next: State, ks: seq<Kind>) returns (st: Option<State>)
      requires Valid()
      modifies this
      ensures Valid()
      ensures match LexSpec.TryTokens(source, old(pos.offset), ks)
        case Some(k) => Config() == LexSpec.LexToken(source, old(Config()), k) && st == Some(next)
        case None => Config() == old(Config()) && st == None
    {
      for i := 0 to |ks|
        invariant Valid() && Config() == old(Config())
        invariant LexSpec.TryTokens(source, pos.offset, ks) == LexSpec.TryTokens(source, pos.offset, ks[i..])
      {
        assert ks[i..][1..] == ks[i + 1..];
        var b := StartsWith(ks[i]);
        if b {
          var s := LexToken(ks[i], next);
          return Some(s);
        }
      }
      return None;
    }

    /** The inner operator scan of tryKeywords: does an operator start at e? */
    method OperatorAt(e: nat) returns (found: bool)
      requires e <= |source|
      ensures found <==> LexSpec.TryTokens(source, e, Operators()).Some?
    {
      var ops := GetOperators();
      assert ops == Operators();
      for j := 0 to |ops|
        invariant forall m :: 0 <= m < j ==> !LexSpec.StartsWith(source, e, ops[m])
      {
        var tok2 := TokenString(ops[j]);
        if |tok2| > 0 && HasPrefix(source[e..], tok2) {
          TryTokensNone(source, e, ops);
          return true;
        }
      }
      TryTokensNone(source, e, ops);
      return false;
    }

    /** The test tryKeywords applies to one keyword: its spelling is
        next and is followed by the end of input, a space byte or an
        operator. */
    method KeywordFits(tok: Kind) returns (fits: bool)
      requires Located()
      ensures fits == LexSpec.KeywordFits(source, pos.offset, tok)
    {
      var tokBytes := TokenString(tok);
      fits := FitsAsKeyword(tokBytes);
    }

    /** The test of KeywordFits for the spelling s. */
    method FitsAsKeyword(s: string) returns (fits: bool)
      requires 0 <= pos.offset <= |source|
      ensures fits == LexSpec.FitsAsKeyword(source, pos.offset, s)
    {
      if |s| > 0 && HasPrefix(source[pos.offset..], s) {
        var e := pos.offset + |s|;
        if |source| < e + 1 {
          return true;
        }
        if IsSpace(source[e]) {
          return true;
        }
        fits := OperatorAt(e);
        return;
      }
      return false;
    }

    /** tryKeywords: lex the first keyword that fits. */
    method TryKeywords(next: State) returns (st: Option<State>)
      requires Valid()
      modifies this
      ensures Valid()
      ensures match LexSpec.TryKeywords(source, old(pos.offset), Keywords())
        case Some(k) => Config() == LexSpec.LexToken(source, old(Config()), k) && st == Some(next)
        case None => Config() == old(Config()) && st == None
    {
      var kws := GetKeywords();
      assert kws == Keywords();
      for i := 0 to |kws|
        invariant Valid() && Config() == old(Config())
        invariant LexSpec.TryKeywords(source, pos.offset, kws) == LexSpec.TryKeywords(source, pos.offset, kws[i..])
      {
        assert kws[i..][1..] == kws[i + 1..];
        var fits := KeywordFits(kws[i]);
        if fits {
          var s := LexToken(kws[i], next);
          return Some(s);
        }
      }
      return None;
    }

    /** The delimiter checks of lexText, in their order. */
    method TextDelimiter() returns (d: Option<Delimiter>)
      requires 0 <= pos.offset <= |source|
      ensures d == LexSpec.TextDelimiter(source, pos.offset, TextDelimiters())
    {
      var ds := TextDelimiters();
      for i := 0 to |ds|
        invariant LexSpec.TextDelimiter(source, pos.offset, ds) == LexSpec.TextDelimiter(source, pos.offset, ds[i..])
      {
        assert ds[i..][1..] == ds[i + 1..];
        var b := Continues(ds[i].spelling);
        if b {
          return Some(ds[i]);
        }
      }
      return None;
    }

    /** The checks at the head of lexText's loop: stop at the end of
        input, at a line feed, or at a delimiter. */
    method TextEnd() returns (st: Option<State>)
      requires Valid()
      modifies this
      ensures Valid()
      ensures match LexSpec.TextEnd(source, old(Config()))
        case Some(r) => Config() == r.0 && st == Some(r.1)
        case None => Config() == old(Config()) && st == None
    {
      var r := Peek();
      if r == Eof {
        Emit(TEXT);
        return Some(Stop);
      }
      if r == '\n' {
        Emit(TEXT);
        r := Next();
        Emit(LNBR);
        return Some(LineWhitespace(Text));
      }
      var d := TextDelimiter();
      if d.Some? {
        TextDelimitersSpelled();
        Emit(TEXT);
        var next := LexSpelled(d.value.kind, d.value.spelling, d.value.next);
        return Some(next);
      }
      return None;
    }

    method LexText() returns (st: State)
      requires Valid()
      modifies this
      ensures Valid() && (Config(), st) == LexSpec.LexText(source, old(Config()))
    {
      while true
        invariant Valid()
        invariant LexSpec.LexText(source, Config()) == LexSpec.LexText(source, old(Config()))
        decreases |source| - pos.offset
      {
        ghost var c := Config();
        var end := TextEnd();
        if end.Some? {
          return end.value;
        }
        LexSpec.LexTextSkips(source, c);
        var r := Next();
        assert Config() == c.(pos := c.pos + 1);
      }
    }

    method LexRealExpr(next: State) returns (st: State)
      requires Valid()
      modifies this
      ensures Valid() && (Config(), st) == LexSpec.LexRealExpr(source, old(Config()), next)
    {
      ghost var c := Config();
      var r := Next();
      if r == Eof {
        return Stop;
      }
      if r == '\n' || r == '\r' {
        Back();
        assert Config() == c;
        return Text;
      }
      if IsSpace(r) {
        return LineWhitespace(next);
      }
      if r == '\'' {
        return SQString;
      }
      if r == '"' {
        return DQString;
      }
      st := ByteInTag(c, r, next);
    }

    /** The rest of lexRealExpr, once the byte r at c's cursor has been
        read. */
    method ByteInTag(ghost c: Cfg, r: char, next: State) returns (st: State)
      requires Valid() && Bounded(source, c) && c.pos < |source| && r == source[c.pos]
      requires Config() == c.(pos := c.pos + 1)
      modifies this
      ensures Valid() && (Config(), st) == LexSpec.ByteInTag(source, c, next)
    {
      if r == '(' {
        Back();
        assert Config() == c;
        st := LexSpelled(LPAREN, "(", next);
        return;
      }
      if r == ')' {
        Back();
        assert Config() == c;
        st := LexSpelled(RPAREN, ")", next);
        return;
      }
      if IsDigit(r) {
        return Num(next);
      }
      var notOp := IsNotOp(r);
      if notOp && r != '.' {
        return Ident(next);
      }
      return next;
    }

    method LexExpr() returns (st: State)
      requires Valid()
      modifies this
      ensures Valid() && (Config(), st) == LexSpec.LexExpr(source, old(Config()))
    {
      var b := Continues("}}");
      if b {
        st := LexSpelled(REXPR, "}}", Text);
        return;
      }
      var ops := GetOperators();
      assert ops == Operators();
      var s := TryTokens(Expr, ops);
      if s.Some? {
        return s.value;
      }
      s := TryKeywords(Expr);
      if s.Some? {
        return s.value;
      }
      return RealExpr(Expr);
    }

    method LexStmt() returns (st: State)
      requires Valid()
      modifies this
      ensures Valid() && (Config(), st) == LexSpec.LexStmt(source, old(Config()))
    {
      var b := Continues("%}");
      if b {
        st := LexSpelled(RSTMT, "%}", LineWhitespace(Text));
        return;
      }
      var ops := GetOperators();
      assert ops == Operators();
      var s := TryTokens(Stmt, ops);
      if s.Some? {
        return s.value;
      }
      s := TryKeywords(Stmt);
      if s.Some? {
        return s.value;
      }
      return RealExpr(Stmt);
    }

    /** The checks of lexComm's loop: the closing `#}`, then eof. */
    method CommEnd() returns (st: Option<State>)
      requires Valid()
      modifies this
      ensures Valid()
      ensures match LexSpec.CommEnd(source, old(Config()))
        case Some(r) => Config() == r.0 && st == Some(r.1)
        case None => Config() == old(Config()) && st == None
    {
      var b := Continues("#}");
      if b {
        Emit(COMM_TEXT);
        var next := LexSpelled(RCOMM, "#}", LineWhitespace(Text));
        return Some(next);
      }
      if pos.offset < |source| && source[pos.offset] != Eof {
        return None;
      }
      var r := Next();
      Emit(COMM_TEXT);
      return Some(Stop);
    }

    method LexComm() returns (st: State)
      requires Valid()
      modifies this
      ensures Valid() && (Config(), st) == LexSpec.LexComm(source, old(Config()))
    {
      while true
        invariant Valid()
        invariant LexSpec.LexComm(source, Config()) == LexSpec.LexComm(source, old(Config()))
        decreases |source| - pos.offset
      {
        ghost var c := Config();
        var end := CommEnd();
        if end.Some? {
          return end.value;
        }
        LexSpec.LexCommSkips(source, c);
        var r := Next();
        assert Config() == c.(pos := c.pos + 1);
      }
    }

    method LexNum(next: State) returns (st: State)
      requires Valid()
      modifies this
      ensures Valid() && (Config(), st) == LexSpec.LexNum(source, old(Config()), next)
    {
      AcceptRun(Digits);
      var dot := Accept(".");
      if dot {
        AcceptRun(Digits);
        Emit(FLOAT);
      } else {
        Emit(INT);
      }
      return next;
    }

    /** The loop shared by lexSQString and lexDQString. */
    method LexQuoted(quote: char) returns (st: State)
      requires Valid()
      modifies this
      ensures Valid() && (Config(), st) == LexSpec.LexQuoted(source, old(Config()), quote)
    {
      while true
        invariant Valid()
        invariant LexSpec.LexQuoted(source, Config(), quote) == LexSpec.LexQuoted(source, old(Config()), quote)
        decreases |source| - pos.offset
      {
        var r := Next();
        if r == Eof {
          Emit(NOT_TERMINATED_STR);
          return Text;
        }
        if r == '\n' {
          Back();
          Emit(NOT_TERMINATED_STR);
          return Text;
        }
        if r == quote {
          Emit(STR);
          return Expr;
        }
      }
    }

    method LexSQString() returns (st: State)
      requires Valid()
      modifies this
      ensures Valid() && (Config(), st) == LexSpec.Step(source, old(Config()), SQString)
    {
      st := LexQuoted('\'');
    }

    method LexDQString() returns (st: State)
      requires Valid()
      modifies this
      ensures Valid() && (Config(), st) == LexSpec.Step(source, old(Config()), DQString)
    {
      st := LexQuoted('"');
    }

    method LexIdent(next: State) returns (st: State)
      requires Valid()
      modifies this
      ensures Valid() && (Config(), st) == LexSpec.LexIdent(source, old(Config()), next)
    {
      while true
        invariant Valid()
        invariant LexSpec.LexIdent(source, Config(), next) == LexSpec.LexIdent(source, old(Config()), next)
        decreases |source| - pos.offset
      {
        ghost var c := Config();
        var r := Next();
        if r == Eof {
          Emit(IDENT);
          return Stop;
        }
        var notOp := IsNotOp(r);
        if !notOp || IsSpace(r) {
          Back();
          assert Config() == c;
          Emit(IDENT);
          return next;
        }
      }
    }

    method LexLineWhitespace(next: State) returns (st: State)
      requires Valid()
      modifies this
      ensures Valid() && (Config(), st) == LexSpec.LexLineWhitespace(source, old(Config()), next)
    {
      while true
        invariant Valid()
        invariant LexSpec.LexLineWhitespace(source, Config(), next)
          == LexSpec.LexLineWhitespace(source, old(Config()), next)
        decreases |source| - pos.offset
      {
        var r := Peek();
        if r == ' ' || r == '\t' {
          r := Next();
        } else if IsSpace(r) {
          Emit(WS);
          return Text;
        } else {
          Emit(WS);
          return next;
        }
      }
    }

    /** Calling a state function: `state = state(l)`. */
    method Step(state: State) returns (st: State)
      requires Valid() && state != Stop
      modifies this
      ensures Valid() && (Config(), st) == LexSpec.Step(source, old(Config()), state)
    {
      match state
      case Text => st := LexText();
      case Expr => st := LexExpr();
      case Stmt => st := LexStmt();
      case Comm => st := LexComm();
      case SQString => st := LexSQString();
      case DQString => st := LexDQString();
      case RealExpr(n) => st := LexRealExpr(n);
      case Num(n) => st := LexNum(n);
      case Ident(n) => st := LexIdent(n);
      case LineWhitespace(n) => st := LexLineWhitespace(n);
    }

    /** run: from line-whitespace-then-text until a state returns Stop. */
    method Run()
      requires Valid() && Config() == Cfg(0, 0, [])
      modifies this
      ensures Valid() && Config() == LexAll(source)
    {
      var state := LineWhitespace(Text);
      while state != Stop
        invariant Valid()
        invariant LexFrom(source, Config(), state) == LexAll(source)
        decreases |source| - pos.offset, Rank(state)
      {
        state := Step(state);
      }
    }
  }

  /** TokensFromBytes: run a fresh lexer and collect its tokens up to the
      first EOF token; since no emitted token is of kind EOF, that is all
      of them. */
  method TokensFromBytes(source: string) returns (toks: seq<Token>)
    ensures toks == TokensOf(source)
  {
    var l := new Lexer(source);
    l.Run();
    toks := [];
    var i := 0;
    while i < |l.tokens| && l.tokens[i].kind != EOF
      invariant 0 <= i <= |l.tokens| && toks == l.tokens[..i]
    {
      toks := toks + [l.tokens[i]];
      i := i + 1;
    }
    assert l.tokens == TokensOf(source);
    TokensArePlaced(source);
    assert forall j :: 0 <= j < |l.tokens| ==> l.tokens[j].kind != EOF;
  }
}
