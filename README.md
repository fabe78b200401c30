# A verified model of a Go template engine's core

The engine reads templates made of text, expression tags `{{ … }}`,
statement tags `{% … %}` and comments `{# … #}`. The model covers its
pipeline:
- **Tokens** (`token.dfy`): the token vocabulary and the range tests built on it.
- **Lexing** (`lex_spec.dfy`, `lexer.dfy`, `lex_findings.dfy`): the state-function lexer over a byte source.
- **Parsing** (`grammar.dfy`, `parser.dfy`, `grammar_props.dfy`, `grammar_examples.dfy`, `parse_errors.dfy`): the expression grammar with its precedence-climbing loop, and the text, `if` and `genif` layer of the statement parser.
- **Values** (`decimal.dfy`, `value.dfy`, `types.dfy`): the value kinds (strings, Booleans, numbers), their conversions, and the primitive types.
- **Analysis** (`analyzer.dfy`): the type analyzer and its error list.
- **Rendering** (`renderer.dfy`, `filters.dfy`, `render_props.dfy`): the renderer and the string filters.
- **Formatting** (`formatter.dfy`, `format_layout.dfy`, `formatter_props.dfy`): the formatter, and the proof that formatted expression tags parse back to themselves.

Each stateful part of the source keeps its form:
- The lexer, the parser, the analyzer, the formatter's buffer writer and the renderer's loops are classes or methods with loops.
- Each is proved equal to a specification function: `LexSpec`, `Grammar`, `Analysis.Infer`, `Formatter.FormatExpr`, `Renderer.RenderNodes`.
- The properties of the source are lemmas about those functions.

Numbers are exact decimals rather than float64, and strings are sequences of bytes.

## Model

| member | source | states |
|---|---|---|
| Tokens.GetOperators | token/token.go:222-230 | the operator kinds, in increasing enumeration order from the begin marker up to (not including) the end marker |
| Tokens.GetKeywords | token/token.go:232-240 | the keyword kinds, in increasing enumeration order from the begin marker up to (not including) the end marker |
| Tokens.IsNotOp | token/token.go:245-254 | true exactly when no non-empty operator spelling starts with the byte; the scan's answer equals membership in the finite set of operator first bytes |
| Tokens.OperatorStartExactly | token/token.go:245-254 | a byte starts some operator spelling if and only if it is one of the listed operator first bytes |
| Tokens.OperatorFirstChar | token/token.go:36-84 | the first byte of every non-empty operator spelling is an operator first byte |
| Tokens.OperatorStartingWith | token/token.go:106-183 | for every operator first byte there is an operator kind whose spelling starts with it |
| Tokens.SpellingHasNoLineBreak | token/token.go:106-183 | no spelling in the table contains a line break |
| Tokens.OperatorSpellingShape | token/token.go:36-84 | operator spellings are at most two bytes long, and only the comparison range markers spell as the empty string |
| Tokens.LongerOperatorsFirst | token/token.go:36-84 | a two-byte operator comes before the one-byte operator that is its prefix in the enumeration, except that `%` comes before `%}` |
| Tokens.DelimiterSpellings | token/token.go:106-183 | the fixed spellings `{{`, `}}`, `{%`, `%}`, `{#`, `#}`, `->` and `is not` |
| Tokens.TagRunes | token/token.go:185-191 | TokenRune is the first byte of the spelling: `(`, `)`, `.` |
| Tokens.ValueableKinds | token/token.go:218-220 | IsValueable holds exactly for the kinds strictly between the valueable range markers, listed one by one |
| Tokens.ComparisonKinds | token/token.go:241-243 | IsComparisonOp holds exactly for `&&`, `\|\|`, `==`, `!=`, `!`, `<=`, `>=`, `<`, `>` |
| Tokens.KeywordSpellingShape | token/token.go:170-182 | keyword spellings are two to seven lower-case letters |
| Tokens.MarkersSpellEmpty | token/token.go:106-187 | TokenString gives the empty spelling exactly for the ten range markers of the enumeration |
| Tokens.TokenRune | token/token.go:189-191 | the rune of an operator kind is one of the operator first bytes |
| Tokens.Token.IsOneOfMany | token/token.go:214-216 | holds exactly when the token's kind occurs somewhere in the given list |
| Tokens.Token.IsValueable | token/token.go:218-220 | a valueable kind is neither an operator nor a keyword |
| Lexer.Lexer.constructor | lexer/interface.go:14-28 | a fresh lexer has start and cursor at line 1, column 1, offset 0 and no tokens |
| Lexer.Lexer.Next | lexer/lexer.go:27-44 | returns the byte under the cursor and advances by one, or returns eof and does not move at the end; line and column stay in step with the offset |
| Lexer.Lexer.Back | lexer/lexer.go:46-62 | moves back one byte, recounting line and column (across a line feed too); does nothing at offset 0 |
| Lexer.Lexer.Peek | lexer/lexer.go:64-70 | the byte under the cursor, the cursor unchanged |
| Lexer.Lexer.Accept | lexer/lexer.go:72-82 | consumes one byte exactly when it is in the set (the corrected end-of-input behaviour, see Findings) |
| Lexer.Lexer.AcceptRun | lexer/lexer.go:84-88 | consumes the longest run of bytes from the set |
| Lexer.Lexer.Emit | lexer/lexer.go:9-18 | a token is added only when bytes are pending; its text is source[start:pos] and its position that of start; start moves to the cursor |
| Lexer.Lexer.LexToken | lexer/states.go:12-18 | steps over the kind's spelling and emits it as one token |
| Lexer.Lexer.StartsWith | lexer/states.go:20-27 | true exactly when the source continues with the kind's spelling at the cursor |
| Lexer.Lexer.Continues | lexer/states.go:20-27 | the same test for a spelling at hand |
| Lexer.Lexer.TryTokens | lexer/states.go:29-38 | lexes the first kind of the list whose spelling comes next, or reports that none does with nothing changed |
| Lexer.Lexer.OperatorAt | lexer/states.go:53-59 | the operator scan inside tryKeywords finds an operator at the offset exactly when one starts there |
| Lexer.Lexer.KeywordFits | lexer/states.go:40-64 | a keyword fits when its spelling comes next and is followed by end of input, a space byte or an operator |
| Lexer.Lexer.FitsAsKeyword | lexer/states.go:40-64 | the same test for a spelling at hand |
| Lexer.Lexer.TryKeywords | lexer/states.go:40-64 | lexes the first keyword that fits, or reports that none does with nothing changed |
| Lexer.Lexer.TextDelimiter | lexer/states.go:85-118 | the first of `{{`, `->`, `{%`, `{#`, `}}`, `#}`, `%}` the source continues with, in that order |
| Lexer.Lexer.TextEnd | lexer/states.go:66-84 | at end of input emits TEXT and stops; at a line feed emits TEXT then LNBR and goes to line-whitespace mode; at a delimiter emits TEXT then the delimiter |
| Lexer.Lexer.LexText | lexer/states.go:66-123 | lexText's loop equals the state function LexSpec.LexText |
| Lexer.Lexer.LexRealExpr | lexer/states.go:125-162 | equals LexSpec.LexRealExpr: one byte read; end of input stops; a line feed or carriage return is stepped back over and text resumes; another space byte goes to line-whitespace mode; quotes start strings; `(` and `)` become tokens; a digit starts a number; a byte that starts no operator, other than `.`, starts an identifier; anything else returns to the tag state |
| Lexer.Lexer.ByteInTag | lexer/states.go:127-161 | the branches of lexRealExpr after the byte is read |
| Lexer.Lexer.LexExpr | lexer/states.go:164-178 | equals LexSpec.LexExpr: `}}` first (back to text), then the operators in enumeration order, then keywords, then lexRealExpr |
| Lexer.Lexer.LexStmt | lexer/states.go:282-297 | equals LexSpec.LexStmt: `%}` first (then line whitespace and text), then operators, keywords, lexRealExpr |
| Lexer.Lexer.CommEnd | lexer/states.go:180-194 | the checks of lexComm's loop: `#}` first, then end of input |
| Lexer.Lexer.LexComm | lexer/states.go:180-194 | everything up to `#}` or end of input becomes one COMM_TEXT token |
| Lexer.Lexer.LexNum | lexer/states.go:196-210 | a digit run with at most one `.` and digits after it, emitted as FLOAT when a `.` was taken, else INT |
| Lexer.Lexer.LexQuoted | lexer/states.go:212-247 | a string closed by its quote is one STR token and lexing returns to the expression state; a line feed (stepped back over) or end of input emits NOT_TERMINATED_STR and returns to text |
| Lexer.Lexer.LexSQString | lexer/states.go:212-229 | single-quoted strings, as LexQuoted |
| Lexer.Lexer.LexDQString | lexer/states.go:231-247 | double-quoted strings, as LexQuoted |
| Lexer.Lexer.LexIdent | lexer/states.go:249-263 | the bytes up to the end of input, a space byte or an operator start form one IDENT token |
| Lexer.Lexer.LexLineWhitespace | lexer/states.go:265-280 | spaces and tabs are taken and emitted as WS; another space byte returns to text, anything else to the next state |
| Lexer.Lexer.Step | lexer/states.go:66-297 | calling a state function equals LexSpec.Step |
| Lexer.Lexer.Run | lexer/lexer.go:20-25 | running from line-whitespace-then-text until a state stops yields LexSpec.LexAll |
| Lexer.TokensFromBytes | lexer/interface.go:30-44 | the collected tokens are TokensOf(source): all emitted tokens, since none is of kind EOF |
| LexSpec.Emit | lexer/lexer.go:9-18 | emitting keeps the earlier tokens, adds at most one, and moves start to the cursor |
| LexSpec.LexToken | lexer/states.go:12-18 | the cursor moves by the spelling's length and start follows it |
| LexSpec.Accept | lexer/lexer.go:72-82 | accepts exactly when a byte is left and it is in the set, advancing by one only then |
| LexSpec.AcceptRun | lexer/lexer.go:84-88 | stops at the first byte outside the set or at the end, every byte passed being in the set |
| LexSpec.TryTokens | lexer/states.go:29-38 | a kind found is in the list and its spelling comes next |
| LexSpec.TryTokensNone | lexer/states.go:29-38 | nothing is found exactly when no kind of the list comes next |
| LexSpec.TryTokensFirst | lexer/states.go:29-38 | the kind found is the first of the list that comes next, so longer operators listed first win |
| LexSpec.TryKeywords | lexer/states.go:40-64 | a keyword found is in the list and fits |
| LexSpec.TryKeywordsNone | lexer/states.go:40-64 | nothing is found exactly when no keyword fits |
| LexSpec.NoOperatorAt | lexer/states.go:29-38 | no operator is lexed at a byte that starts no operator spelling |
| LexSpec.NoKeywordAt | lexer/states.go:40-64 | no keyword is lexed at a byte that is not a lower-case letter |
| LexSpec.TextDelimitersSpelled | lexer/states.go:85-118 | each delimiter lexText looks for is spelled as its kind and holds no line feed |
| LexSpec.LexTextSkips | lexer/states.go:66-123 | a plain text byte is copied and lexing goes on from the next one |
| LexSpec.LexCommSkips | lexer/states.go:180-194 | a comment byte that is not `#}` is copied and lexing goes on |
| LexSpec.Step | lexer/states.go:66-297 | every state function either moves the cursor forward or moves to a state of smaller rank, so lexing terminates |
| LexSpec.LexAll | lexer/lexer.go:20-25 | the whole run ends within the source |
| LexSpec.TokensOf | lexer/lexer.go:20-25 | every token the run collects is non-empty and none is EOF |
| LexSpec.PositionAfterByte | lexer/lexer.go:27-44 | after one byte the line goes up and the column restarts at 1 for a line feed, else the column goes up by one |
| LexSpec.PositionAcross | lexer/states.go:12-18 | stepping over n bytes without a line feed adds n to the column |
| LexSpec.ColumnScan | lexer/lexer.go:46-62 | the column is the distance to the last line feed before the offset, which is what back recounts |
| LexSpec.TextTiles | lexer/states.go:66-123 | lexText keeps the invariant that the tokens tile the source up to start |
| LexSpec.RealExprTiles | lexer/states.go:125-162 | lexRealExpr keeps the tiling invariant |
| LexSpec.ExprTiles | lexer/states.go:164-178 | lexExpr keeps the tiling invariant |
| LexSpec.StmtTiles | lexer/states.go:282-297 | lexStmt keeps the tiling invariant |
| LexSpec.CommTiles | lexer/states.go:180-194 | lexComm keeps the tiling invariant |
| LexSpec.NumTiles | lexer/states.go:196-210 | lexNum keeps the tiling invariant |
| LexSpec.QuotedTiles | lexer/states.go:212-247 | the string states keep the tiling invariant |
| LexSpec.IdentTiles | lexer/states.go:249-263 | lexIdent keeps the tiling invariant |
| LexSpec.LineWhitespaceTiles | lexer/states.go:265-280 | lexLineWhitespace keeps the tiling invariant |
| LexSpec.StepTiles | lexer/states.go:66-297 | every state function keeps the tiling invariant |
| LexSpec.LexFromTiles | lexer/lexer.go:20-25 | the whole run keeps the tiling invariant |
| LexSpec.TilesAppend | lexer/lexer.go:9-18 | emitting the pending bytes extends a tiling by one non-empty token |
| LexSpec.TilesConcat | lexer/lexer.go:9-18 | the texts of tiling tokens concatenate to the covered source |
| LexSpec.TilesHaveNoEof | lexer/lexer.go:9-18 | tiling tokens are non-empty and none is of kind EOF |
| LexSpec.TilesPositions | lexer/lexer.go:9-18 | each tiling token's position is the line, column and offset of its first byte |
| LexSpec.TokensSpellSource | lexer/lexer.go:9-25 | the tokens' texts concatenate to the source up to where lexing stopped |
| LexSpec.TokensArePlaced | lexer/lexer.go:9-25 | every token is non-empty, not EOF, spelled by the source at its offset and positioned there |
| LexFindings.AcceptAsWritten | lexer/lexer.go:72-82 | accept as written: at end of input it steps back one byte |
| LexFindings.AcceptRunAsWritten | lexer/lexer.go:84-88 | acceptRun as written ends one byte early when the run reaches the end |
| LexFindings.LexNumAsWritten | lexer/states.go:196-210 | lexNum as written agrees with the corrected one except when the number ends the input |
| LexFindings.NumberAtEndCycles | lexer/states.go:196-210 | on `{{1` the as-written lexNum returns to the state before the digit, so lexing cycles |
| LexFindings.NumberAtEndLexes | lexer/states.go:196-210 | on `{{1` the corrected lexer emits `{{` and INT `1` |
| LexSpec.TextDelimiter | lexer/states.go:85-118 | a delimiter is found only where its spelling continues the source |
| LexSpec.TextEnd | lexer/states.go:66-84 | the text state stops at end of input or moves past a delimiter; otherwise input remains to skip |
| LexSpec.LexText | lexer/states.go:66-123 | text lexing either advances or stops the lexer |
| LexSpec.LexRealExpr | lexer/states.go:125-162 | inside a tag the lexer advances, stops at end of input, or returns to text |
| LexSpec.ByteInTag | lexer/states.go:127-161 | every byte inside a tag is consumed |
| LexSpec.LexExpr | lexer/states.go:164-178 | after `{{` the lexer advances or hands over to the tag state |
| LexSpec.LexStmt | lexer/states.go:282-297 | after `{%` the lexer advances or hands over to the tag state |
| LexSpec.CommEnd | lexer/states.go:180-194 | a comment stops at end of input or moves past its end; otherwise input remains to skip |
| LexSpec.LexComm | lexer/states.go:180-194 | comment lexing either advances or stops the lexer |
| LexSpec.LexNum | lexer/states.go:196-210 | a number never moves backwards and always hands back to the tag state |
| LexSpec.LexQuoted | lexer/states.go:212-247 | a string literal advances or, unterminated, returns to text |
| LexSpec.LexIdent | lexer/states.go:249-263 | an identifier advances, stops at end of input, or hands back to the tag |
| LexSpec.LexLineWhitespace | lexer/states.go:265-280 | trailing whitespace after a tag advances or hands on |
| LexSpec.LexFrom | lexer/lexer.go:20-25 | running the state machine keeps the cursor inside the source |
| LexSpec.EmitTiles | lexer/lexer.go:9-18 | emitting a token keeps the tokens a tiling of the consumed source |
| LexSpec.LexTokenTiles | lexer/states.go:12-18 | reading a fixed token keeps the tiling |
| LexFindings.DotAtEndSplits | lexer/states.go:196-210 | on `{{1.` the as-written lexNum emits FLOAT `1` and leaves the `.` pending, while the corrected one emits FLOAT `1.` |
| LexFindings.DotAtEndPeriod | lexer/states.go:164-178 | the `.` left pending there is lexed by lexExpr as PERIOD |
| LexFindings.LoneAmpersandLost | lexer/states.go:125-131 | on `{{&` the `&` is never emitted: lexing stops with it pending, and the tokens spell only `{{` |
| Grammar.Cur | parser/parser.go:71-76 | the token at the index, or an end-of-input token past the end |
| Grammar.SkipWs | parser/parser.go:53-60 | the first index at or after the start that is not a whitespace token, never past the end unless it did not move |
| Grammar.SkipWsSkipsSpaces | parser/parser.go:53-60 | every token skipped over is a whitespace token |
| Grammar.SkipLineBreaks | parser/parser.go:62-69 | the first index at or after the start that is not a line-break token; every token skipped is a line break |
| Grammar.GetPrecedence | parser/expressions.go:292-311 | no operator is right-associative, and every level is 0, 10 or 20 |
| Grammar.ParseExpr | parser/expressions.go:32-34 | a successful parse consumes at least one token and ends within the input (or just past it) |
| Grammar.ParseFilter | parser/expressions.go:36-69 | a successful parse consumes at least one token and ends within the input |
| Grammar.FilterLoop | parser/expressions.go:42-66 | the filter loop never moves the cursor back |
| Grammar.ParseTernary | parser/expressions.go:71-127 | a successful parse consumes at least one token and ends within the input |
| Grammar.TernaryTail | parser/expressions.go:78-124 | the ternary tail never moves the cursor back |
| Grammar.ParseBinary | parser/expressions.go:151-197 | a successful parse consumes at least one token and ends within the input |
| Grammar.BinaryLoop | parser/expressions.go:157-194 | the precedence-climbing loop never moves the cursor back |
| Grammar.ParseUnary | parser/expressions.go:129-149 | a successful parse consumes at least one token and ends within the input |
| Grammar.ParsePrimary | parser/expressions.go:200-290 | a successful parse consumes at least one token and ends within the input |
| Grammar.TextEnd | parser/parser.go:110-139 | the text run is the longest stretch of text, line-break and whitespace tokens, stopping at whitespace that precedes `{%` |
| Grammar.Pieces | parser/parser.go:118-133 | one piece per token of the run, each that token's text |
| Grammar.ParseText | parser/parser.go:110-146 | always yields a text node and stops where the text run ends |
| Grammar.ParseExprNode | parser/expressions.go:10-30 | a successful expression tag yields a node and consumes at least `{{` |
| Grammar.ParseNode | parser/parser.go:78-108 | yields a node and moves forward, or yields nothing and stays put (whitespace before an end tag) |
| Grammar.ParseStmt | parser/parser.go:378-397 | a successful statement yields a node and moves forward |
| Grammar.ParseEndTag | parser/parser.go:435-467 | a successful end tag `{% end %}` moves forward |
| Grammar.ParseIf | parser/parser.go:399-470 | a successful `if` block yields a node and moves forward |
| Grammar.ParseGenIf | parser/parser.go:472-503 | a successful `genif` tag yields a node and moves forward |
| Grammar.ParseBody | parser/parser.go:505-525 | a successful body never moves the cursor back |
| Grammar.ParseFrom | parser/parser.go:30-45 | a successful run keeps the nodes already collected as a prefix, in order; an error from the node at the cursor is the run's error |
| Grammar.Parse | parser/parser.go:30-45 | an empty token list parses to no nodes; an error parsing the first node is returned as the parse's error |
| Parser.Parser.constructor | parser/parser.go:20-28 | a fresh parser sits on the first token with no nodes |
| Parser.Parser.GetCurrent | parser/parser.go:71-76 | the token at the cursor, or an end-of-input token past the end |
| Parser.Parser.Next | parser/parser.go:47-51 | advances the cursor by one and refreshes the current token |
| Parser.Parser.ConsumeWhitespaces | parser/parser.go:53-60 | moves to the first non-whitespace token and returns the skipped text |
| Parser.Parser.ConsumeLineBreak | parser/parser.go:62-69 | moves past the line breaks and returns their text |
| Parser.Parser.ParseExpr | parser/expressions.go:32-34 | the result and the new cursor are those of the grammar's expression parse |
| Parser.Parser.ParseFilterExpr | parser/expressions.go:36-69 | the loop's result and cursor are those of the grammar's filter parse |
| Parser.Parser.ParseTernaryExpr | parser/expressions.go:71-77 | the result and cursor are those of the grammar's ternary parse |
| Parser.Parser.ParseTernaryTail | parser/expressions.go:78-127 | the result and cursor are those of the grammar's ternary tail |
| Parser.Parser.ParseUnaryExpr | parser/expressions.go:129-149 | the result and cursor are those of the grammar's unary parse |
| Parser.Parser.ParseBinaryExpr | parser/expressions.go:151-197 | the precedence-climbing loop's result and cursor are those of the grammar's binary parse |
| Parser.Parser.ParseNumberLit | parser/expressions.go:220-255 | on `-`, an integer or a float, the result and cursor are those of the grammar's primary parse |
| Parser.Parser.ParsePrimary | parser/expressions.go:200-290 | the result and cursor are those of the grammar's primary parse |
| Parser.Parser.ParseExprNode | parser/expressions.go:10-30 | the expression tag and cursor are those of the grammar's |
| Parser.Parser.ParseText | parser/parser.go:110-146 | the text node and cursor are those of the grammar's text parse |
| Parser.Parser.ParseNode | parser/parser.go:78-108 | the node (or none) and cursor are those of the grammar's node parse |
| Parser.Parser.ParseStmt | parser/parser.go:378-397 | the statement and cursor are those of the grammar's statement parse |
| Parser.Parser.ParseIfStmt | parser/parser.go:399-470 | the `if` block and cursor are those of the grammar's |
| Parser.Parser.ParseEndTag | parser/parser.go:435-467 | the end tag's leading whitespace and the cursor, or the error, are those of the grammar's |
| Parser.Parser.ParseGenIfStmt | parser/parser.go:472-503 | the `genif` tag and cursor are those of the grammar's |
| Parser.Parser.ParseBody | parser/parser.go:505-525 | the loop's body and cursor, or the error, are those of the grammar's body parse |
| Parser.Parser.Parse | parser/parser.go:30-45 | the loop's result is the grammar's parse of the token list, and on success the parser holds exactly those nodes |
| ParseErrors.ErrorTypeText | parser/errors.go:10-18 | the three fixed error texts |
| ParseErrors.QuotedAll | parser/errors.go:29-41 | each expected kind quoted in order |
| ParseErrors.ExpectedTokensText | parser/errors.go:29-41 | the loop builds the quoted kinds joined by ", " followed by " expected" |
| ParseErrors.ErrorMessages | parser/errors.go:20-27 | an error's message is exactly its type's text |
| ParseErrors.SingleExpected | parser/errors.go:29-41 | one expected kind reads `'<spelling>' expected` |
| ParseErrors.ExpectedJoined | parser/errors.go:29-41 | several expected kinds are listed in order, separated by ", " |
| ParseErrors.MissingRexprMessage | parser/tests/expression_test.go:337-346 | a missing `}}` reads `'}}' expected` |
| ParseErrors.Message | parser/errors.go:25-41 | an Error's text is its type's text, an ExpectedTokensError's text ends in " expected", and only the unknown-statement error has the empty text |
| GrammarProps.ExprGood | parser/expressions.go:32-69 | every expression parse yields a well-formed tree and stops on neither whitespace nor `->` |
| GrammarProps.FilterGood | parser/expressions.go:36-69 | the filter parse yields a well-formed tree and stops on neither whitespace nor `->` |
| GrammarProps.FilterLoopGood | parser/expressions.go:42-66 | the filter loop keeps the tree well-formed and consumes every `->` |
| GrammarProps.TernaryGood | parser/expressions.go:71-127 | a ternary is built only from a matching pair, `?` with `:` or `do` with `else` |
| GrammarProps.TailGood | parser/expressions.go:78-124 | the ternary tail keeps the tree well-formed |
| GrammarProps.BinaryGood | parser/expressions.go:151-197 | binary nodes carry only ranked operators, and the parse stops at an operator below the minimum level |
| GrammarProps.BinaryLoopGood | parser/expressions.go:157-194 | the loop keeps the tree well-formed and stops at an operator below the minimum level |
| GrammarProps.UnaryGood | parser/expressions.go:129-149 | unary nodes carry only `not` or `!` |
| GrammarProps.PrimaryGood | parser/expressions.go:200-290 | primaries are well-formed, and number literals are in normal form |
| GrammarProps.NodeGood | parser/parser.go:78-108 | every node parsed is text, an expression tag, a `genif` tag or an `if` with no else branches |
| GrammarProps.StmtGood | parser/parser.go:378-397 | statements are `if` blocks or `genif` tags |
| GrammarProps.IfGood | parser/parser.go:399-470 | an `if` block has no else-if or else part and a body of well-formed nodes |
| GrammarProps.BodyGood | parser/parser.go:505-525 | every node of a body is well-formed |
| GrammarProps.ParseFromGood | parser/parser.go:30-45 | the parse loop only appends well-formed nodes |
| GrammarProps.ParseGood | parser/parser.go:30-45 | a successful parse holds only well-formed nodes; comments and switches are never produced |
| GrammarProps.BodyStopsAtEnd | parser/parser.go:505-525 | a body stops just before `end` or at the whitespace before `{% end` |
| GrammarProps.NoNodeOnlyBeforeEnd | parser/parser.go:84-89 | parsing yields no node exactly when whitespace precedes `{% end` |
| GrammarProps.StmtKeepsPreWs | parser/parser.go:84-94 | the whitespace before an `if` tag is kept in the tag |
| GrammarProps.WsTextSpells | parser/parser.go:53-60 | consumeWhitespaces returns exactly the concatenated text of the whitespace tokens it skips |
| GrammarProps.LineBreakTextSpells | parser/parser.go:62-69 | consumeLineBreak returns exactly the concatenated text of the line-break tokens it skips |
| GrammarExamples.Operand | parser/expressions.go:202-209 | an identifier followed by a non-space token parses to itself |
| GrammarExamples.SameLevelGroupsLeft | parser/expressions.go:151-197 | two operators of one level group to the left |
| GrammarExamples.HigherLevelGroupsRight | parser/expressions.go:151-197 | a higher-level operator on the right binds first |
| GrammarExamples.SymbolicAndBindsLikeOr | parser/expressions.go:292-302 | `&&` lies in the comparison range and so shares level 10 with the symbolic or, grouping left, while the words `and` and `or` keep `and` above `or` |
| GrammarExamples.ComparisonsChainLeft | parser/expressions.go:292-295 | comparisons (and `!`, in the comparison range) chain to the left |
| GrammarExamples.IsEndsTheExpression | parser/expressions.go:292-311 | `is` ranks at level 0, so `{{a is b}}` fails with `'}}' expected` |
| GrammarExamples.FiltersFoldLeft | parser/tests/expression_test.go:961-1039 | `a->f->g` nests the first filter inside the second |
| GrammarExamples.TernaryPairs | parser/tests/expression_test.go:786-810 | `a?b:c` parses to a ternary with `?` and `:` |
| GrammarExamples.TernaryMismatch | parser/expressions.go:95-107 | `?` followed by `else` reports that `:` was expected |
| GrammarExamples.TagErrors | parser/tests/expression_test.go:310-346 | `{{}}` reports expression expected; `{{var` reports `'}}' expected` |
| GrammarExamples.MinusBeforeIdentIsNil | parser/expressions.go:220-255 | `-` followed by an identifier yields the nil expression and skips the identifier |
| GrammarExamples.NegativeNumber | parser/tests/expression_test.go:43-53 | `-2.5` parses to one negative literal |
| GrammarExamples.UnknownKeyword | parser/parser.go:389-396 | a statement keyword other than `if` or `genif` is an error |
| GrammarExamples.IfStatement | parser/tests/statement_test.go:14-38 | `{% if a %}x{% end %}` parses to one `if` node holding the text |
| GrammarExamples.BadNumberPanics | parser/expressions.go:229-233 | a number token whose text ParseFloat rejects makes parsePrimary panic |
| Values.AsString | value/value.go:52-122 | a string prints as itself, a Boolean as the empty string, and a number as non-empty text |
| Values.StringNumber | value/value.go:60-71 | a string that reads as a number gives that number; any other string gives its position-weighted byte sum |
| Values.AsNumber | value/value.go:60-130 | true converts to 1 and false to 0, a number to itself, a string to its StringNumber; the result is in normal form |
| Values.WeightedSumLoop | value/value.go:65-68 | the loop adds each byte times its one-based position, as the weighted-sum definition says |
| Values.StringAsNumber | value/value.go:60-71 | a string's number is the number the value model gives it |
| Values.Add | value/value.go:73-140 | the sum is a string exactly when either side is a string, and then it is the two printed forms joined |
| Values.TypeOf | value/value.go:77-143 | every value reports string, boolean or number as its type |
| Values.FromAny | value/value.go:19-47 | a converted value is well-formed |
| Values.FromAnyKeepsType | value/value.go:19-47 | a converted value has the type the input had, and keeps its content |
| Values.FromAnyAccepts | value/value.go:19-47 | exactly strings, Booleans, float64 and int values, and pointers to them, convert; everything else panics |
| Values.Truthiness | value/value.go:56-126 | a string is true when non-empty, a number when non-zero, a Boolean as itself |
| Values.BooleansPrintAlike | value/value.go:83-85 | true and false both print as the empty string |
| Values.BooleanSum | value/value.go:99-135 | a Boolean added to a number counts as 1 or 0, on either side |
| Values.MixedAddConcatenates | value/value.go:132-140 | adding a number and a string joins the number's text and the string, in order |
| Values.IntegralPrints | value/value.go:115-122 | a whole number prints without a fraction, and that text reads back as the same number |
| Values.WeightedExample | value/value.go:65-68 | "ab" converts to 97 + 2 * 98 = 293 |
| Values.AsBoolean | value/value.go:56-126 | a string is true exactly when non-empty, a Boolean is itself, a normal-form number is true exactly when it is not 0 |
| Values.WeightedSum | value/value.go:65-68 | the weighted sum is never negative, and is 0 exactly when every byte is NUL |
| Types.IsValid | types/types.go:27-57 | number accepts the Go integer and float kinds, boolean a bool, string a string, any everything, and any other type nothing |
| Types.GetDefaultValue | types/types.go:59-70 | number defaults to "0", boolean to "false", everything else to "" |
| Decimal.FromInt | value/value.go:33-34 | an integer becomes the number with that value and no fraction |
| Decimal.Normalize | value/value.go:113 | normalising gives a normal form (no trailing fractional zero) of no larger scale and keeps the sign |
| Decimal.NormalizeValue | value/value.go:113 | normalising keeps the value |
| Decimal.NormalUnique | value/value.go:113 | two normal numbers of equal value are the same representation |
| Decimal.Neg | parser/expressions.go:235-237 | negation flips the sign and keeps the normal form |
| Decimal.Sum | value/value.go:102-135 | the sum is normal and has the exact value of the two operands added |
| Decimal.ParseDecimal | value/value.go:60-63 | what reads as a number is in normal form |
| Decimal.NumberString | value/value.go:115-122 | every number prints as non-empty text |
| Decimal.IntegralRoundTrip | value/value.go:117-118 | a whole number prints as its integer text, and that text reads back as the number |
| Decimal.PlainRoundTrip | value/value.go:115-122 | a non-negative number printed without an exponent reads back as itself |
| Decimal.NegativeText | value/value.go:115-122 | a negative number prints as `-` followed by its magnitude's text |
| Decimal.ExponentFormOf | value/value.go:115-122 | a fraction outside %g's plain range prints as its sign, the leading digit, the other digits after a `.`, then `e`, the exponent's sign and at least two exponent digits |
| Decimal.LargeUsesExponent | value/value.go:115-122 | 1234567.5 prints as `1.2345675e+06` |
| Decimal.SmallUsesExponent | value/value.go:115-122 | -0.0000015 prints as `-1.5e-06` |
| Decimal.BoundsStayPlain | value/value.go:115-122 | 0.0001 and 123456.5, at the edges of the plain range, print as `0.0001` and `123456.5` |
| Strings.UpperString | renderer/filters.go:15-17 | each byte is upper-cased in place |
| Strings.LowerString | renderer/filters.go:18-20 | each byte is lower-cased in place |
| Strings.DigitsValueOfNatToString | value/value.go:115-122 | the decimal text of a natural number reads back as that number |
| Strings.NatToStringOfDigits | value/value.go:115-122 | a digit string without a leading zero is the text of its own value |
| Filters.Capitalize | renderer/filters.go:33-37 | keeps the length of the text |
| Filters.CapitalizeFirstOnly | renderer/filters.go:33-37 | only the first byte changes, and only from lower to upper case; capitalizing twice changes nothing more |
| Filters.Title | renderer/filters.go:38-53 | keeps the length of the text |
| Filters.TitleLoop | renderer/filters.go:38-53 | the loop's output is the title-cased text |
| Filters.TitleChars | renderer/filters.go:38-53 | a byte is upper-cased exactly when it is not a space and starts a word |
| Filters.TitleIdempotent | renderer/filters.go:38-53 | title-casing twice is the same as once |
| Filters.TitleFrom | renderer/filters.go:38-53 | the loop keeps the length, keeps every space byte, and changes any other byte at most by upper-casing it |
| Filters.TrimLeft | renderer/filters.go:57-59 | removes the longest run of leading spaces |
| Filters.TrimRight | renderer/filters.go:57-59 | removes the longest run of trailing spaces |
| Filters.TrimSpaceSlice | renderer/filters.go:57-59 | the trimmed text is a slice of the input with only spaces cut from either end |
| Filters.TrimSpaceIdempotent | renderer/filters.go:57-59 | the trimmed text starts and ends with a non-space, and trimming again changes nothing |
| Filters.CaseMapping | renderer/filters.go:15-20 | upper and lower are idempotent, and lower after upper is plain lower |
| Filters.CallFilter | renderer/filters.go:62-69 | a filter result is always a well-formed value |
| Filters.FilterResults | renderer/filters.go:14-69 | an unknown name fails with "filter <name> is not declared"; length gives the byte count; every other known filter gives a string; the only failing known filter is capitalize on empty text |
| Analysis.Quote | analyzer/analyzer.go:22 | the quoted name starts and ends with a double quote and is at least two bytes longer than the name |
| Analysis.Escape | analyzer/analyzer.go:22 | escaping never shortens the name |
| Analysis.Unified | analyzer/analyzer.go:18-26 | a conflict is reported exactly when the name is recorded with a concrete type, the new type is concrete and differs; on a conflict the map is unchanged and the message names both types; otherwise an unknown or `any` entry takes the new type and everything else is kept |
| Analysis.Infer | analyzer/analyzer.go:28-88 | the inferred type of an expression is `any`, number or string, never boolean; InferLeaves and InferBinaryRule state the rule case by case for all inputs |
| Analysis.Analyzer.constructor | analyzer/analyzer.go:28 | the analyzer starts from the given map and no errors |
| Analysis.Analyzer.AddToTypeMap | analyzer/analyzer.go:18-26 | the map is updated in place, and the result reported, as the unification function says; the error list is untouched |
| Analysis.Analyzer.Record | analyzer/analyzer.go:31-36 | adding a name appends its conflict message, if any, to the error list |
| Analysis.Analyzer.ParseExpressionTypes | analyzer/analyzer.go:28-88 | the returned type, the map and the error list after the walk are those of the inference function |
| Analysis.RefinesTransitive | analyzer/analyzer.go:18-26 | refinement of type maps is transitive |
| Analysis.AddRefines | analyzer/analyzer.go:18-26 | adding a name keeps every concrete type already recorded and records the name |
| Analysis.RecordRefines | analyzer/analyzer.go:31-36 | recording keeps every concrete type and never drops an error |
| Analysis.ForceRefines | analyzer/analyzer.go:55-77 | forcing an operand's type keeps every concrete type and never drops an error |
| Analysis.InferRefines | analyzer/analyzer.go:28-88 | inference keeps every concrete type already recorded and only appends errors |
| Analysis.InferRecordsIdents | analyzer/analyzer.go:28-88 | every identifier inference visits ends up in the type map |
| Analysis.AnyNeverConflicts | analyzer/analyzer.go:18-26 | adding a name as `any` never fails and leaves a recorded name alone |
| Analysis.VarPlusNumber | analyzer/analyzer.go:66-79 | `age + 123` and `123 + age` make `age` a number |
| Analysis.VarPlusVar | analyzer/analyzer.go:83-84 | `age + time` leaves both names `any` |
| Analysis.VarPlusString | analyzer/analyzer.go:52-65 | `name + 'ish'` makes `name` a string |
| Analysis.ConflictReported | analyzer/analyzer.go:21-22 | a name first forced to string and then to number keeps string and reports the conflict |
| Analysis.QuoteExamples | analyzer/analyzer.go:22 | `%q` wraps in double quotes and escapes an inner quote |
| Analysis.ConflictMessage | analyzer/analyzer.go:22 | the message starts with "unmatched type of " followed by the quoted name |
| Analysis.Recorded | analyzer/analyzer.go:31-36 | the name ends up in the map; the error list is unchanged or grows by the conflict message against the recorded type; a concrete type leaves the name bound to it or reported |
| Analysis.Force | analyzer/analyzer.go:55-77 | an operand that is not an identifier changes nothing; an identifier ends up bound to the forced type or its conflict is reported |
| Analysis.ForcedKept | analyzer/analyzer.go:55-77 | a later forcing never undoes an earlier one's binding or report |
| Analysis.InferLeaves | analyzer/analyzer.go:30-46 | an identifier infers `any` and is recorded without error; number and string literals infer number and string and change nothing |
| Analysis.InferBinaryRule | analyzer/analyzer.go:48-84 | for all operands: `+` with a string side is string, else with a number side is number, and each identifier operand ends up bound to that type or its conflict reported; otherwise, and for every other operator, the result is `any` with nothing more recorded |
| AnalyzerErrors.Message | analyzer/errors.go:20-22 | the message starts with the fixed prefix followed by the variable's name |
| AnalyzerErrors.Messages | analyzer/errors.go:34-37 | one message per error, in order |
| AnalyzerErrors.ListMessageLoop | analyzer/errors.go:26-40 | the loop builds the list's message |
| AnalyzerErrors.Err | analyzer/errors.go:44-50 | no error exactly for the empty list, otherwise the list itself |
| AnalyzerErrors.TypeErrors.constructor | analyzer/errors.go:24 | a new list is empty |
| AnalyzerErrors.TypeErrors.Add | analyzer/errors.go:53-55 | appends the error at the end |
| AnalyzerErrors.ListMessageSplit | analyzer/errors.go:26-40 | a non-empty list reads as its messages joined by ", ", the first one leading |
| AnalyzerErrors.NoErrorsOnlyForEmpty | analyzer/errors.go:27-29 | the message is "no errors" exactly for the empty list |
| AnalyzerErrors.FirstMessageLeads | analyzer/errors.go:26-40 | the first error's message begins the list's message |
| AnalyzerErrors.ListMessage | analyzer/errors.go:26-40 | one error reads as its own message; with two or more, the first message followed by ", " leads |
| Renderer.InputToContext | renderer/renderer.go:18-29 | the context exists exactly when every input converts, and then it binds only well-formed values |
| Renderer.BuildContext | renderer/renderer.go:18-29 | the loop builds the context the conversion function describes |
| Renderer.Eval | renderer/renderer.go:140-254 | every value an expression evaluates to is well-formed |
| Renderer.BinaryOp | renderer/renderer.go:212-249 | every value an operator yields is well-formed |
| Renderer.Render | renderer/renderer.go:31-134 | the loop's output or error is that of rendering the node list |
| Renderer.RenderStep | renderer/renderer.go:35-130 | one node's output, error or early stop is that of the node renderer |
| Renderer.RenderIf | renderer/renderer.go:49-89 | an `if` node's output, error or early stop is that of the node renderer |
| Renderer.RenderSwitch | renderer/renderer.go:91-126 | a `switch` node's output or error is that of the node renderer |
| Renderer.Eql | renderer/renderer.go:136-138 | any two Booleans are equal, two strings exactly when their text is, and a Boolean equals exactly the empty string |
| Renderer.RenderNodes | renderer/renderer.go:31-134 | no nodes render as empty text; an error from the first node is the render's error; a first node that stops the list gives exactly its own text |
| Renderer.RenderNode | renderer/renderer.go:35-130 | only an if node stops the list; a text node writes its pieces in order; comment and bare statement nodes are errors |
| Renderer.RenderElseIfs | renderer/renderer.go:66-82 | no branch is taken only when every else-if condition evaluated without error to a falsy value |
| Renderer.RenderCases | renderer/renderer.go:97-117 | no case matches only when every case value evaluated without error and none is eql to the subject |
| RenderProps.ContextBindsBooleans | renderer/renderer.go:18-29 | the context binds every input name to its converted value and binds `true` and `false`, overriding inputs of those names |
| RenderProps.UnboundIdent | renderer/renderer.go:142-148 | an identifier fails with "<name> not declared" exactly when the context lacks it, and otherwise gives its value |
| RenderProps.TernaryEvaluatesOneBranch | renderer/renderer.go:150-168 | a ternary evaluates to the branch its condition selects |
| RenderProps.UntakenBranchNotEvaluated | renderer/renderer.go:156-163 | an undeclared name in the branch not taken causes no error |
| RenderProps.NotNegatesTruth | renderer/renderer.go:170-182 | `not` and `!` give the negated truth value; any other unary operator fails |
| RenderProps.LeftErrorFirst | renderer/renderer.go:201-205 | an error in the left operand is the binary expression's error |
| RenderProps.LogicalOperatorsReturnOperands | renderer/renderer.go:221-233 | and/or return one of their operands, whose truth is the conjunction or disjunction |
| RenderProps.EqualityIsText | renderer/renderer.go:215-219 | `==` and `is` compare printed forms, and `!=` and `is not` are their negations |
| RenderProps.BooleansCompareEqual | renderer/renderer.go:136-138 | any two Booleans compare equal, since both print empty |
| RenderProps.TrueEqualsFalse | renderer/renderer.go:25-26 | `true == false` renders as true |
| RenderProps.LessComparesNumbers | renderer/renderer.go:238-239 | `<` compares the operands' numbers |
| RenderProps.GreaterIsSwappedLess | renderer/renderer.go:235-236 | `>` is `<` with the operands swapped |
| RenderProps.GreaterOrEqualIsSwapped | renderer/renderer.go:244-245 | `>=` is `<=` with the operands swapped |
| RenderProps.LessOrEqualIsLessOrSame | renderer/renderer.go:241-242 | `<=` holds when less or equal in number |
| RenderProps.Trichotomy | renderer/renderer.go:235-245 | the number order is total and strict |
| RenderProps.OtherOperatorsFail | renderer/renderer.go:247-248 | any other binary operator fails with "unknown operator in binary expression" |
| RenderProps.RenderAppend | renderer/renderer.go:34-133 | rendering a list that does not stop early, followed by more nodes, is its output followed by the rest's |
| RenderProps.ContinuesTail | renderer/renderer.go:34-133 | a list that does not stop early starts with a node that does not stop |
| RenderProps.ErrorAborts | renderer/renderer.go:42-45 | an error in a node aborts the whole render with that error, discarding earlier output |
| RenderProps.OnlyIfStops | renderer/renderer.go:55-81 | only an `if` whose condition or an else-if holds stops the render early |
| RenderProps.EarlyReturn | renderer/renderer.go:55-64 | a true `if` ends the render with its body: later nodes are not rendered |
| RenderProps.TextOnly | renderer/renderer.go:36-39 | text nodes render as the concatenation of their pieces |
| RenderProps.SwitchFirstMatch | renderer/renderer.go:99-116 | the first case whose value prints like the subject is rendered, and no later case is evaluated |
| RenderProps.SwitchNoMatch | renderer/renderer.go:119-126 | no matching case selects the default body |
| RenderProps.SwitchContinues | renderer/renderer.go:91-126 | a `switch` never stops the render early |
| Formatter.NumberText | formatter/formatter.go:69-70 | a number is written as non-empty text |
| Formatter.Spaced | formatter/formatter.go:92-94 | an operator is written between single spaces |
| Formatter.Infix | formatter/formatter.go:87-98 | `x op y` is written exactly when both operands are, and the left operand's error comes first |
| Formatter.FormatExpr | formatter/formatter.go:63-126 | an expression is written exactly when every part is of a known kind (no filter, no nil); otherwise the error is "unknown expression type" |
| Formatter.FormatNode | formatter/formatter.go:39-61 | text is always written and an expression tag when its expression is; any other node is an error |
| Formatter.FormatNodes | formatter/formatter.go:21-29 | a failed document fails with the error of one of its nodes |
| Formatter.Writer.constructor | formatter/formatter.go:22 | the buffer starts empty |
| Formatter.Writer.WriteExpr | formatter/formatter.go:63-126 | on success the buffer grows by the expression's text; on failure the error is the expression's |
| Formatter.Writer.WriteParen | formatter/formatter.go:71-77 | on success the buffer grows by the parenthesised text |
| Formatter.Writer.WriteUnary | formatter/formatter.go:78-86 | on success the buffer grows by the operator, a space after `not`, and the operand |
| Formatter.Writer.WriteBinary | formatter/formatter.go:87-98 | on success the buffer grows by both operands around the spaced operator |
| Formatter.Writer.WriteTernary | formatter/formatter.go:101-120 | on success the buffer grows by condition, keywords and branches, each keyword between spaces |
| Formatter.Writer.WriteInfix | formatter/formatter.go:87-120 | writes two parts around a spaced keyword, stopping at the first error |
| Formatter.Writer.WriteNode | formatter/formatter.go:39-61 | the node is written exactly when the node formatter accepts it, and the buffer grows by its text |
| Formatter.FromAst | formatter/formatter.go:21-29 | the loop's output is the document's text, or the first node's error |
| Formatter.FormatNodesOk | formatter/formatter.go:21-29 | a document is written exactly when every node is |
| Formatter.FirstErrorWins | formatter/formatter.go:23-26 | once a node fails, later nodes do not change the error |
| Formatter.FormatNodesSnoc | formatter/formatter.go:23-28 | one more node appends its text |
| Formatter.FormatNodesAppend | formatter/formatter.go:21-29 | formatting two documents one after the other joins their texts |
| FormatLayout.TokensSpellFormat | formatter/formatter.go:63-126 | the formatted text of an expression is exactly the concatenated text of its token run |
| FormatLayout.NumberSpelling | formatter/formatter.go:69-70 | a number's tokens spell its printed text, a leading `-` as a token of its own |
| FormatLayout.FormatIgnoresPositions | formatter/formatter.go:63-126 | positions never show in the output: a tree and its position-free copy format alike |
| FormatLayout.BinaryFormattable | formatter/formatter.go:63-126 | every canonical operator tree can be formatted |
| FormatLayout.FullFormattable | formatter/formatter.go:63-126 | every canonical expression, ternaries included, can be formatted |
| FormatLayout.OperatorParts | parser/expressions.go:151-197 | a canonical operator tree has an operator at its top with the operand shapes the parser's loop builds |
| FormatLayout.UnaryShape | parser/expressions.go:129-149 | a canonical unary expression is a primary, or `not`/`!` before another |
| FormatterProps.PrimaryRoundTrip | parser/expressions.go:200-290 | a canonical primary's tokens parse back to it, positions erased |
| FormatterProps.NumberRoundTrip | parser/expressions.go:220-255 | a number's tokens, `-` included, parse back to the same number |
| FormatterProps.ParenRoundTrip | parser/expressions.go:256-278 | a parenthesised expression's tokens parse back to it |
| FormatterProps.UnaryRoundTrip | parser/expressions.go:129-149 | a unary chain's tokens parse back to it |
| FormatterProps.NotRoundTrip | formatter/formatter.go:78-86 | the space written after `not` is skipped when reading back |
| FormatterProps.BinaryRoundTrip | parser/expressions.go:151-197 | a canonical operator tree's tokens parse back to it at the given minimum level |
| FormatterProps.OperatorRoundTrip | parser/expressions.go:157-194 | `x op y` with spaced operator is read back by one step of the operator loop |
| FormatterProps.FullRoundTrip | parser/expressions.go:32-127 | a canonical expression's tokens parse back to it, positions erased, when followed by a token that ends expressions |
| FormatterProps.TernaryEntry | parser/expressions.go:71-127 | a canonical ternary's tokens parse back to it |
| FormatterProps.BinaryEntry | parser/expressions.go:32-77 | an operator tree followed by a token that ends expressions parses back as a whole expression |
| FormatterProps.OperatorParse | parser/expressions.go:157-194 | the operator loop reads `x op y` once x stops at op and y, read one level higher, stops before a token binding no tighter |
| FormatterProps.ConditionRoundTrip | parser/expressions.go:71-77 | a ternary's condition parses back and stops at the first keyword |
| FormatterProps.TrueBranchRoundTrip | parser/expressions.go:78-127 | a ternary's first branch parses back and stops at the second keyword |
| FormatterProps.TernaryParse | parser/expressions.go:78-127 | the ternary tail reads `c ? t : x` or `c do t else x` once each part is read up to the keyword after it |
| FormatterProps.TernaryRoundTrip | parser/expressions.go:71-127 | the parts of a ternary, laid out around its keywords, parse back into it |
| FormatterProps.ExprNodeText | formatter/formatter.go:46-55 | an expression tag is written as `{{ `, the expression, ` }}`, independent of positions |
| FormatterProps.ExprTagParse | parser/expressions.go:10-30 | an expression tag laid out as `{{`, space, expression, space, `}}` parses back to the tag, consuming every token |
| FormatterProps.ExprNodeParse | parser/expressions.go:10-30 | the tokens of a formatted expression tag parse back to the tag, positions erased, consuming every token |
| FormatterProps.ExprNodeRoundTrip | formatter/formatter.go:46-55 | formatting a canonical tag and parsing its tokens gives back the tag, which formats to the same text |

## Left out

Lexer:
- Lexer.Lexer.Run models the corrected `accept` (see Findings). So do LexSpec.LexAll, LexSpec.TokensOf and Lexer.TokensFromBytes. They differ from the source on every tag whose number reaches the end of input: `{{1` never stops in the source, and `{{1.` gives FLOAT `1` then PERIOD `.` there, against FLOAT `1.` here (LexFindings.DotAtEndSplits, LexFindings.DotAtEndPeriod).
- LexSpec.TokensSpellSource states that the tokens spell the source only up to where lexing stopped. Full losslessness does not hold for the code as written. An operator byte that ends the input stays pending and is never emitted (`{{&`, LexFindings.LoneAmpersandLost). A NUL byte reads as end of input.
- Bytes stand for characters throughout. UTF-8 decoding by `range` and `unicode` functions on runes above 0xFF are not modelled. `unicode.IsSpace` and `unicode.IsDigit` are applied to single bytes.
- The goroutine and channel between the lexer and its consumer are replaced by a run to completion, followed by reading the collected tokens.

Parser:
- Grammar.ParsePrimary turns the `panic` on a number token that ParseFloat rejects into the error `Panic`. This branch is not proved unreachable from lexer-made tokens; GrammarExamples.BadNumberPanics shows it on a hand-built token. With exact decimals every digit text parses, so the ErrRange panic on a literal beyond float64's range is not modelled.
- The `is` operator is kept as written: getPrecedence gives it level 0, so an expression stops before it (GrammarExamples.IsEndsTheExpression). The loop's collapse of `is` followed by `not` into ISNOT (parser/expressions.go:167-174) is therefore never reached, so `is not` does not parse either. The formatter's own tests for `{{ 1 is 2 }}` and `{{ a is not b }}` (formatter/tests/expression_test.go:95-118) therefore cannot hold for this parser. No corrected grammar is modelled, because the intended level of `is` is not stated anywhere in the source.
- The other precedence quirks are kept as written: `&&` and `!` fall in the comparison range (GrammarExamples.SymbolicAndBindsLikeOr, GrammarExamples.ComparisonsChainLeft).
- The if-statement parser in parser.go is the older one. It parses no `else if` or `else`, so Grammar.ParseIf always yields no else-if branches and an empty ElseNode.
- Parse errors made with `errors.New("")` are the error `UnknownStatement`. The debug print in parser.go:519 is left out.

Values and types:
- Decimal.ParseDecimal reads only an optional sign and `digits[.digits]`. strconv.ParseFloat also accepts exponents (`1e3`), `inf`, `Infinity`, `NaN` and hexadecimal floats; those texts are None here.
- Values.StringNumber and Values.StringAsNumber therefore give `1e3` its weighted byte sum (404), where the source gives 1000. This feeds the renderer's `<` and `>`.
- Values.WeightedSum weights each byte by its index. Go's `for i, char := range v` decodes UTF-8 and weights each rune by its byte index, so the two agree on ASCII text only (`"éa"` is 524 in Go).
- Decimal.NumberString prints exact decimals. It does not model float64 rounding of 17 or more significant digits or of large integers. The `%g` exponent form is modelled (UsesExponent, ExponentForm), but only the examples LargeUsesExponent, SmallUsesExponent and BoundsStayPlain cover it; no round-trip lemma reads an exponent form back, since ParseDecimal rejects exponents.
- Values.AsString prints `-0` as `0`. In Go, `{{ -0 }}` multiplies 0 by -1 (parser/expressions.go:235-237) and prints `-0`.
- Decimal.Normalize puts numbers in normal form, where the source keeps a float64; equal values are equal representations.
- Values.FromAny returns None where the source panics on an unsupported host type.
- Types.IsValid omits the debug `Printf` in types/types.go:28.

Analyzer:
- analyzer/analyzer.go:30-48 switches on `parser.Lit` and on value-typed `parser.Ident` and `parser.BinaryExpr`. The AST in parser/ast.go has no `Lit` type, and its Ident and BinaryExpr implement Expr only through pointer receivers (parser/ast.go:159-166). Analysis.Infer maps these cases to the number literal, the string literal, the identifier and the binary expression of the AST.
- Analysis.Escape escapes only `"` and `\`. `%q` also escapes control bytes and invalid UTF-8.

Filters and rendering:
- Filters.CallFilter maps case and recognises spaces in ASCII only.
- Filters.Capitalize keeps the length. `string(unicode.ToUpper(rune(s[0])))` (renderer/filters.go:36) re-encodes a first byte of 0x80 or above as two bytes.
- Filters.Title and Filters.TrimSpaceSlice treat only ASCII space bytes as spaces, where `unicode.IsSpace` decodes runes.
- The case-conversion filters from the strcase package are a parameter of the filter table, not modelled.
- Filters.Capitalize on empty text is the source's index panic, modelled as an error.
- renderer/renderer.go reads the IfNode fields `Main` and `Else`, while parser/ast.go:134-140 declares `MainBody` and `ElseBody`; the model has one IfNode, with the fields of ast.go.
- Renderer.RenderNodes reads the switch default body as a node list: renderer/renderer.go:119-120 reads `DefaultCase.Body` on a `[]Node`, and an empty default renders nothing, like a nil one.
- Renderer.BinaryOp compares Booleans by printed text, so any two Booleans are equal (RenderProps.BooleansCompareEqual). An `if` whose branch is taken ends the whole render (RenderProps.EarlyReturn). Both are kept as written.

Formatter:
- FormatterProps.ExprNodeRoundTrip is proved on the token list of one expression tag, built from the expression (FormatLayout.ExprTokens). It is not proved that the lexer turns the formatted text into that list. So names spelled like keywords (`Ident("and")`), names with spaces, and strings holding their own quote or a line break are canonical here but do not read back from text. Whole templates with text and line breaks between tags are not covered.
- FormatLayout.Full, the canonical shape, leaves out exponent forms of numbers and filter expressions, which the formatter rejects.
- Formatter.FormatExpr and Formatter.FormatNode return the offending expression or node as the error's data. The message text that fmt.Errorf builds from it (formatter/formatter.go:57, 122) is not modelled.
- Tokens.TokenString adds four kinds that the lexer, parser and renderer use but token/token.go does not declare: MINUS in the slot of SUB, GTR doubling as the renderer's GRTR, PERIOD after COMMA, and ISNOT after the keyword range. `Kind.IsOneOfMany` (formatter/formatter.go:80) exists only on Token (token/token.go:214), and is read as the test `kind == NOT`.

## Findings

| source | as written | input that shows it | evidently intended | confidence | as-written member | corrected member |
|---|---|---|---|---|---|---|
| lexer/lexer.go:72-82 with lexer/states.go:196-210 | `accept` calls `back` after `next` returned eof, moving the cursor one byte back at the end of input | `{{1`: lexNum and lexRealExpr hand the digit to each other forever; `{{1.`: FLOAT `1` and then PERIOD | at the end of input nothing is consumed, so nothing is stepped back | not executed | LexFindings.NumberAtEndCycles, LexFindings.DotAtEndSplits | LexFindings.NumberAtEndLexes, LexSpec.Accept |
