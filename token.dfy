/** Token vocabulary: the kind enumeration, its spellings and the range
    predicates built on the enumeration order (token/token.go).

    The kinds are numbered in declaration order exactly as Go's `iota`
    numbers them, so range tests are integer comparisons. Four kinds that
    the lexer, parser and renderer use but token.go does not declare are
    reconciled here: MINUS takes the slot and spelling of SUB ("-"), GTR
    is also the renderer's GRTR (">"), PERIOD (".") is an operator placed
    after COMMA, and ISNOT ("is not") sits after the keyword range so that
    the lexer never produces it; only the parser builds it. */
module Tokens {
  import opened Strings

  newtype Kind = k: int | 0 <= k < 75

  const EOF: Kind := 0
  const ILLEGAL: Kind := 1
  const ValueableBeg: Kind := 2
  const COMM_TEXT: Kind := 3
  const LNBR: Kind := 4
  const TEXT: Kind := 5
  const WS: Kind := 6
  const IDENT: Kind := 7
  const INT: Kind := 8
  const FLOAT: Kind := 9
  const STR: Kind := 10
  const ErrorsBeg: Kind := 11
  const NOT_TERMINATED_STR: Kind := 12
  const EXPECTED_EXPR: Kind := 13
  const ErrorsEnd: Kind := 14
  const ValueableEnd: Kind := 15
  const OperatorBeg: Kind := 16
  const RARR: Kind := 17
  const ComparisonOpBeg: Kind := 18
  const LAND: Kind := 19
  const LOR: Kind := 20
  const EQL: Kind := 21
  const NEQL: Kind := 22
  const EXCL: Kind := 23
  const LEQ: Kind := 24
  const GEQ: Kind := 25
  const LESS: Kind := 26
  const GTR: Kind := 27
  const ComparisonOpEnd: Kind := 28
  const ASSIGN: Kind := 29
  const ADD_ASSIGN: Kind := 30
  const SUB_ASSIGN: Kind := 31
  const MUL_ASSIGN: Kind := 32
  const QUO_ASSIGN: Kind := 33
  const REM_ASSIGN: Kind := 34
  const ADD: Kind := 35
  const MINUS: Kind := 36
  const MUL: Kind := 37
  const DIV: Kind := 38
  const MOD: Kind := 39
  const QUESTION: Kind := 40
  const COLON: Kind := 41
  const LEXPR: Kind := 42
  const REXPR: Kind := 43
  const LCOMM: Kind := 44
  const RCOMM: Kind := 45
  const LSTMT: Kind := 46
  const RSTMT: Kind := 47
  const LPAREN: Kind := 48
  const LBRACK: Kind := 49
  const LBRACE: Kind := 50
  const COMMA: Kind := 51
  const PERIOD: Kind := 52
  const RPAREN: Kind := 53
  const RBRACK: Kind := 54
  const RBRACE: Kind := 55
  const OperatorEnd: Kind := 56
  const KeywordBeg: Kind := 57
  const FOR: Kind := 58
  const LET: Kind := 59
  const IF: Kind := 60
  const GENIF: Kind := 61
  const ELSE: Kind := 62
  const SWITCH: Kind := 63
  const END: Kind := 64
  const CASE: Kind := 65
  const DEFAULT: Kind := 66
  const EXTEND: Kind := 67
  const AND: Kind := 68
  const OR: Kind := 69
  const IS: Kind := 70
  const NOT: Kind := 71
  const DO: Kind := 72
  const KeywordEnd: Kind := 73
  const ISNOT: Kind := 74

  /** The spelling table `tokens`; range markers spell as "". */
  function TokenString(k: Kind): string {
    match k
    case 0 => "EOF"
    case 1 => "ILLEGAL"
    case 2 => ""
    case 3 => "COMMENT"
    case 4 => "LBR"
    case 5 => "TEXT"
    case 6 => "WHITESPACE"
    case 7 => "IDENT"
    case 8 => "INT"
    case 9 => "FLOAT"
    case 10 => "STRING"
    case 11 => ""
    case 12 => "NOT_TERMINATED_STR"
    case 13 => "EXPECTED_EXPR"
    case 14 => ""
    case 15 => ""
    case 16 => ""
    case 17 => "->"
    case 18 => ""
    case 19 => "&&"
    case 20 => "||"
    case 21 => "=="
    case 22 => "!="
    case 23 => "!"
    case 24 => "<="
    case 25 => ">="
    case 26 => "<"
    case 27 => ">"
    case 28 => ""
    case 29 => "="
    case 30 => "+="
    case 31 => "-="
    case 32 => "*="
    case 33 => "/="
    case 34 => "%="
    case 35 => "+"
    case 36 => "-"
    case 37 => "*"
    case 38 => "/"
    case 39 => "%"
    case 40 => "?"
    case 41 => ":"
    case 42 => "{{"
    case 43 => "}}"
    case 44 => "{#"
    case 45 => "#}"
    case 46 => "{%"
    case 47 => "%}"
    case 48 => "("
    case 49 => "["
    case 50 => "{"
    case 51 => ","
    case 52 => "."
    case 53 => ")"
    case 54 => "]"
    case 55 => "}"
    case 56 => ""
    case 57 => ""
    case 58 => "for"
    case 59 => "let"
    case 60 => "if"
    case 61 => "genif"
    case 62 => "else"
    case 63 => "switch"
    case 64 => "end"
    case 65 => "case"
    case 66 => "default"
    case 67 => "extend"
    case 68 => "and"
    case 69 => "or"
    case 70 => "is"
    case 71 => "not"
    case 72 => "do"
    case 73 => ""
    case 74 => "is not"
  }

  /** Exactly the range markers of the enumeration have no spelling. */
  lemma MarkersSpellEmpty(k: Kind)
    ensures TokenString(k) == "" <==> k == ValueableBeg || k == ErrorsBeg || k == ErrorsEnd || k == ValueableEnd
                                      || k == OperatorBeg || k == ComparisonOpBeg || k == ComparisonOpEnd
                                      || k == OperatorEnd || k == KeywordBeg || k == KeywordEnd
  {
  }

  /** The first byte of a kind's spelling; indexing an empty spelling panics. */
  function TokenRune(k: Kind): (r: char)
    requires TokenString(k) != ""
    ensures IsOperator(k) ==> r in OperatorStartChars
  {
    TokenString(k)[0]
  }

  datatype Position = Position(line: int, column: int, offset: int)

  datatype Token = Token(kind: Kind, val: string, pos: Position) {

    /** slices.Contains over the given kinds. */
    predicate IsOneOfMany(kinds: seq<Kind>): (b: bool)
      ensures b <==> exists i :: 0 <= i < |kinds| && kinds[i] == kind
    {
      kind in kinds
    }

    /** Kinds strictly between valueable_beg and valueable_end carry source
        text of their own; every other kind is written as its spelling. */
    predicate IsValueable(): (b: bool)
      ensures b ==> !IsOperator(kind) && !(KeywordBeg < kind < KeywordEnd)
    {
      ValueableBeg < kind < ValueableEnd
    }

    predicate IsComparisonOp() {
      ComparisonOpBeg < kind < ComparisonOpEnd
    }
  }

  /** The kinds lo, lo+1, ..., hi-1 in enumeration order. */
  function KindRange(lo: Kind, hi: Kind): (r: seq<Kind>)
    requires lo <= hi
    ensures |r| == (hi - lo) as int
    ensures forall i :: 0 <= i < |r| ==> r[i] as int == lo as int + i
  {
    seq((hi - lo) as int, i requires 0 <= i < (hi - lo) as int => (lo as int + i) as Kind)
  }

  /** GetOperators: a fresh slice holding operator_beg .. operator_end-1. */
  method GetOperators() returns (res: seq<Kind>)
    ensures |res| == (OperatorEnd - OperatorBeg) as int
    ensures forall i :: 0 <= i < |res| ==> res[i] as int == OperatorBeg as int + i
  {
    var n := (OperatorEnd - OperatorBeg) as int;
    var a := new Kind[n];
    for i := 0 to n
      invariant forall j :: 0 <= j < i ==> a[j] as int == OperatorBeg as int + j
    {
      a[i] := (i + OperatorBeg as int) as Kind;
    }
    res := a[..];
  }

  /** GetKeywords: a fresh slice holding keyword_beg .. keyword_end-1. */
  method GetKeywords() returns (res: seq<Kind>)
    ensures |res| == (KeywordEnd - KeywordBeg) as int
    ensures forall i :: 0 <= i < |res| ==> res[i] as int == KeywordBeg as int + i
  {
    var n := (KeywordEnd - KeywordBeg) as int;
    var a := new Kind[n];
    for i := 0 to n
      invariant forall j :: 0 <= j < i ==> a[j] as int == KeywordBeg as int + j
    {
      a[i] := (i + KeywordBeg as int) as Kind;
    }
    res := a[..];
  }

  predicate IsOperator(k: Kind) { OperatorBeg < k < OperatorEnd }
  predicate IsKeyword(k: Kind) { KeywordBeg < k < KeywordEnd }

  /** r is the first byte of some non-empty operator spelling. */
  ghost predicate IsOperatorStart(r: char) {
    exists k: Kind :: IsOperator(k) && TokenString(k) != "" && TokenString(k)[0] == r
  }

  /** IsNotOp scans operator_beg+1 .. operator_end-1 for a spelling
      starting with r. */
  method IsNotOp(r: char) returns (b: bool)
    ensures b <==> !IsOperatorStart(r)
    ensures b <==> r !in OperatorStartChars
  {
    OperatorStartExactly(r);
    var i := OperatorBeg + 1;
    while i < OperatorEnd
      invariant OperatorBeg < i <= OperatorEnd
      invariant forall k: Kind :: OperatorBeg < k < i ==> TokenString(k) == "" || TokenString(k)[0] != r
    {
      var t := TokenString(i);
      if t != "" && r == t[0] {
        return false;
      }
      i := i + 1;
    }
    return true;
  }

  /** The bytes that start an operator, written out. */
  const OperatorStartChars: string := "-&|=!<>+*/%?:{}#([,.)]"

  /** An operator kind spelled starting with r, for every r in
      OperatorStartChars. */
  function OperatorStartingWith(r: char): (k: Kind)
    requires r in OperatorStartChars
    ensures IsOperator(k) && TokenString(k) != "" && TokenString(k)[0] == r
  {
    if r in "-&|=!<>+*/%" then SymbolOperatorStartingWith(r) else PunctuationStartingWith(r)
  }

  function SymbolOperatorStartingWith(r: char): (k: Kind)
    requires r in "-&|=!<>+*/%"
    ensures IsOperator(k) && TokenString(k) != "" && TokenString(k)[0] == r
  {
    if r == '-' then RARR else if r == '&' then LAND else if r == '|' then LOR
    else if r == '=' then EQL else if r == '!' then EXCL else if r == '<' then LESS
    else if r == '>' then GTR else if r == '+' then ADD else if r == '*' then MUL
    else if r == '/' then DIV else MOD
  }

  function PunctuationStartingWith(r: char): (k: Kind)
    requires r in "?:{}#([,.)]"
    ensures IsOperator(k) && TokenString(k) != "" && TokenString(k)[0] == r
  {
    if r == '?' then QUESTION
    else if r == ':' then COLON else if r == '{' then LBRACE else if r == '}' then RBRACE
    else if r == '#' then RCOMM else if r == '(' then LPAREN else if r == '[' then LBRACK
    else if r == ',' then COMMA else if r == '.' then PERIOD else if r == ')' then RPAREN
    else RBRACK
  }

  lemma OperatorFirstChar(k: Kind)
    requires IsOperator(k) && TokenString(k) != ""
    ensures TokenString(k)[0] in OperatorStartChars
  {
  }

  lemma OperatorStartExactly(r: char)
    ensures IsOperatorStart(r) <==> r in OperatorStartChars
  {
    if r in OperatorStartChars {
      var k := OperatorStartingWith(r);
    }
    if IsOperatorStart(r) {
      var k: Kind :| IsOperator(k) && TokenString(k) != "" && TokenString(k)[0] == r;
      OperatorFirstChar(k);
    }
  }

  /** No spelling holds a line break, so consuming one never starts a line. */
  lemma SpellingHasNoLineBreak(k: Kind)
    ensures '\n' !in TokenString(k)
  {
    var s := TokenString(k);
    if k < 15 {
      assert '\n' !in s;
    } else if k < 30 {
      assert '\n' !in s;
    } else if k < 45 {
      assert '\n' !in s;
    } else if k < 60 {
      assert '\n' !in s;
    } else {
      assert '\n' !in s;
    }
  }

  /** Operators and keywords have non-empty spellings of bounded length;
      only the range markers inside those ranges spell as "". */
  lemma OperatorSpellingShape(k: Kind)
    requires IsOperator(k)
    ensures |TokenString(k)| <= 2
    ensures TokenString(k) == "" <==> k == ComparisonOpBeg || k == ComparisonOpEnd
  {
  }

  /** In operator order, a two-byte operator precedes every one-byte
      operator that is its prefix; the single exception is MOD "%" before
      RSTMT "%}". */
  lemma LongerOperatorsFirst(short: Kind, long: Kind)
    requires IsOperator(short) && IsOperator(long)
    requires |TokenString(short)| == 1 && |TokenString(long)| == 2
    requires TokenString(long)[0] == TokenString(short)[0]
    ensures long < short || (short == MOD && long == RSTMT)
  {
  }

  /** The spellings the lexer matches against the source. */
  lemma DelimiterSpellings()
    ensures TokenString(LEXPR) == "{{" && TokenString(REXPR) == "}}"
    ensures TokenString(LSTMT) == "{%" && TokenString(RSTMT) == "%}"
    ensures TokenString(LCOMM) == "{#" && TokenString(RCOMM) == "#}"
    ensures TokenString(RARR) == "->" && TokenString(ISNOT) == "is not"
  {
  }

  /** The runes lexRealExpr compares a byte with. */
  lemma TagRunes()
    ensures TokenString(LPAREN) == "(" && TokenString(RPAREN) == ")" && TokenString(PERIOD) == "."
    ensures TokenRune(LPAREN) == '(' && TokenRune(RPAREN) == ')' && TokenRune(PERIOD) == '.'
  {
  }

  /** The valueable kinds are exactly the text-carrying kinds and the
      error kinds (with the errors_beg/errors_end markers between them). */
  lemma ValueableKinds(t: Token)
    ensures t.IsValueable() <==>
      t.kind in {COMM_TEXT, LNBR, TEXT, WS, IDENT, INT, FLOAT, STR,
                 ErrorsBeg, NOT_TERMINATED_STR, EXPECTED_EXPR, ErrorsEnd}
  {
  }

  /** The comparison range holds the logical operators and EXCL as well. */
  lemma ComparisonKinds(t: Token)
    ensures t.IsComparisonOp() <==>
      t.kind in {LAND, LOR, EQL, NEQL, EXCL, LEQ, GEQ, LESS, GTR}
  {
  }

  /** Keyword spellings are lower-case words of two to seven letters. */
  lemma KeywordSpellingShape(k: Kind)
    requires IsKeyword(k)
    ensures 2 <= |TokenString(k)| <= 7
    ensures forall i :: 0 <= i < |TokenString(k)| ==> IsLower(TokenString(k)[i])
  {
  }
}
