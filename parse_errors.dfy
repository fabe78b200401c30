/** Errors the parser reports and their messages (parser/errors.go). */
module ParseErrors {
  import opened Strings
  import opened Tokens

  /** The three declared ErrorType texts. */
  datatype ErrorType = ExpressionExpected | EndExpected | KeywordExpected

  function ErrorTypeText(t: ErrorType): (s: string)
    ensures t == ExpressionExpected ==> s == "expression expected"
    ensures t == EndExpected ==> s == "'{% end %}' expected"
    ensures t == KeywordExpected ==> s == "'if', 'genif', 'end' expected"
  {
    match t
    case ExpressionExpected => "expression expected"
    case EndExpected => "'{% end %}' expected"
    case KeywordExpected => "'if', 'genif', 'end' expected"
  }

  /** Everything parsing can end with instead of a result: the two error
      types of errors.go, the two bare errors.New values of parser.go
      (an unexpected token where a node starts, and a statement keyword
      other than `if`/`genif`, whose message is empty), and the panic of
      parsePrimary when strconv.ParseFloat rejects a number token. */
  datatype ParseError =
    | Error(pos: Position, typ: ErrorType)
    | ExpectedTokensError(pos: Position, tokens: seq<Kind>)
    | UnexpectedToken
    | UnknownStatement
    | Panic(pos: Position)

  /** A kind's spelling in single quotes. */
  function Quoted(k: Kind): string {
    "'" + TokenString(k) + "'"
  }

  function QuotedAll(kinds: seq<Kind>): (r: seq<string>)
    ensures |r| == |kinds|
    ensures forall i :: 0 <= i < |kinds| ==> r[i] == Quoted(kinds[i])
  {
    if kinds == [] then [] else [Quoted(kinds[0])] + QuotedAll(kinds[1..])
  }

  /** The message of ExpectedTokensError. */
  function ExpectedMessage(kinds: seq<Kind>): string {
    Join(QuotedAll(kinds), ", ") + " expected"
  }

  /** The text error() returns for each kind of failure. */
  function Message(e: ParseError): (r: string)
    ensures e.Error? ==> r == ErrorTypeText(e.typ)
    ensures e.ExpectedTokensError? ==> |r| >= 9 && r[|r| - 9..] == " expected"
    ensures r == "" <==> e.UnknownStatement?
  {
    match e
    case Error(_, t) => ErrorTypeText(t)
    case ExpectedTokensError(_, kinds) => ExpectedMessage(kinds)
    case UnexpectedToken => "unexpected token while parsing node"
    case UnknownStatement => ""
    case Panic(_) => "runtime panic"
  }

  /** ExpectedTokensError.Error as the source computes it: quote each kind
      into a list, then join. */
  method ExpectedTokensText(kinds: seq<Kind>) returns (s: string)
    ensures s == ExpectedMessage(kinds)
  {
    var b: seq<string> := [];
    for i := 0 to |kinds|
      invariant |b| == i
      invariant forall j :: 0 <= j < i ==> b[j] == Quoted(kinds[j])
    {
      b := b + [Quoted(kinds[i])];
    }
    var q := QuotedAll(kinds);
    assert forall j :: 0 <= j < |b| ==> b[j] == q[j];
    assert b == q;
    s := Join(b, ", ") + " expected";
  }

  /** Error.Error is exactly the text of its type. */
  lemma ErrorMessages(p: Position)
    ensures Message(Error(p, ExpressionExpected)) == "expression expected"
    ensures Message(Error(p, EndExpected)) == "'{% end %}' expected"
    ensures Message(Error(p, KeywordExpected)) == "'if', 'genif', 'end' expected"
  {
  }

  /** One expected kind: its quoted spelling, then " expected". */
  lemma SingleExpected(p: Position, k: Kind)
    ensures Message(ExpectedTokensError(p, [k])) == "'" + TokenString(k) + "' expected"
  {
  }

  /** Two or more kinds are separated by ", " in the order given. */
  lemma {:induction false} ExpectedJoined(p: Position, k: Kind, rest: seq<Kind>)
    requires rest != []
    ensures Message(ExpectedTokensError(p, [k] + rest))
         == Quoted(k) + ", " + Join(QuotedAll(rest), ", ") + " expected"
  {
    assert ([k] + rest)[1..] == rest;
  }

  /** The message for a missing `}}`. */
  lemma MissingRexprMessage(p: Position)
    ensures Message(ExpectedTokensError(p, [REXPR])) == "'}}' expected"
  {
  }
}
