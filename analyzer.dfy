/** Type inference over template expressions (analyzer/analyzer.go):
    a map from variable names to primitive types, refined by the
    addToTypeMap unification rule, and the list of conflicts found. */
module Analysis {
  import opened Wrappers
  import opened Tokens
  import opened Ast
  import Types

  type TypeMap = map<string, Types.PrimitiveType>

  /** %q of a name: in double quotes, with `"` and `\` escaped. */
  function Quote(s: string): (r: string)
    ensures |r| >= |s| + 2 && r[0] == '"' && r[|r| - 1] == '"'
  {
    "\"" + Escape(s) + "\""
  }

  function Escape(s: string): (r: string)
    ensures |r| >= |s|
  {
    if s == [] then ""
    else (if s[0] == '"' || s[0] == '\\' then ['\\', s[0]] else [s[0]]) + Escape(s[1..])
  }

  /** The error addToTypeMap returns on a conflict. */
  function ConflictMessage(name: string, got: Types.PrimitiveType, expected: Types.PrimitiveType): (r: string)
    ensures |r| > 18 + |Quote(name)| && r[..18] == "unmatched type of "
    ensures r[18..18 + |Quote(name)|] == Quote(name)
  {
    "unmatched type of " + Quote(name) + ", got " + got.name + ", expected " + expected.name
  }

  /** What one addToTypeMap call leaves: the map and the error, if any. */
  datatype Added = Added(typeMap: TypeMap, err: Option<string>)

  /** addToTypeMap: an absent or Any entry takes the new type; a concrete
      entry meeting a different concrete type is a conflict, reported
      with the map unchanged; an Any never changes a recorded entry. */
  function Unified(tm: TypeMap, name: string, typ: Types.PrimitiveType): (r: Added)
    ensures r.err.Some? <==> name in tm && tm[name] != Types.Any && typ != Types.Any && typ != tm[name]
    ensures r.err.Some? ==> r.typeMap == tm && r.err.value == ConflictMessage(name, typ, tm[name])
    ensures r.err.None? ==> r.typeMap == if name !in tm || tm[name] == Types.Any then tm[name := typ] else tm
  {
    if name !in tm || tm[name] == Types.Any then Added(tm[name := typ], None)
    else if typ != Types.Any && typ != tm[name] then Added(tm, Some(ConflictMessage(name, typ, tm[name])))
    else Added(tm, None)
  }

  /** The analyzer's state: the type map and the errors so far. */
  datatype State = State(typeMap: TypeMap, errs: seq<string>)

  /** addToTypeMap, with its error appended to the list. */
  function Recorded(s: State, name: string, typ: Types.PrimitiveType): (r: State)
    ensures name in r.typeMap
    ensures r.errs == s.errs
            || (name in s.typeMap && r.errs == s.errs + [ConflictMessage(name, typ, s.typeMap[name])])
    ensures typ != Types.Any ==> ForcedTo(r, name, typ)
  {
    var a := Unified(s.typeMap, name, typ);
    State(a.typeMap, if a.err.Some? then s.errs + [a.err.value] else s.errs)
  }

  /** The type forced on an operand of `+`: recorded only when the
      operand is an identifier. */
  function Force(s: State, operand: Expr, typ: Types.PrimitiveType): (r: State)
    ensures !operand.Ident? ==> r == s
    ensures operand.Ident? && typ != Types.Any ==> ForcedTo(r, operand.name, typ)
  {
    if operand.Ident? then Recorded(s, operand.name, typ) else s
  }

  datatype Inferred = Inferred(typ: Types.PrimitiveType, state: State)

  /** parseExpressionTypes: an identifier records Any; number and string
      literals are Number and String; `+` with a String side forces
      String on its identifier operands, else with a Number side forces
      Number; anything else is Any. The children of other expression
      kinds are not visited. */
  function Infer(e: Expr, s: State): (r: Inferred)
    ensures r.typ in {Types.Any, Types.Number, Types.String}
    decreases e
  {
    match e
    case Ident(_, name) => Inferred(Types.Any, Recorded(s, name, Types.Any))
    case NumberLit(_, _) => Inferred(Types.Number, s)
    case StringLit(_, _, _) => Inferred(Types.String, s)
    case BinaryExpr(x, op, y) =>
      var left := Infer(x, s);
      var right := Infer(y, left.state);
      var t1, t2 := left.typ, right.typ;
      if op.kind == ADD && (t1 == Types.String || t2 == Types.String) then
        Inferred(Types.String, Force(Force(right.state, x, Types.String), y, Types.String))
      else if op.kind == ADD && (t1 == Types.Number || t2 == Types.Number) then
        Inferred(Types.Number, Force(Force(right.state, x, Types.Number), y, Types.Number))
      else Inferred(Types.Any, right.state)
    case _ => Inferred(Types.Any, s)
  }

  /** The analyzer over a type map it updates in place and an error list
      it appends to. */
  class Analyzer {
    var typeMap: TypeMap
    var errs: seq<string>

    constructor (tm: TypeMap)
      ensures typeMap == tm && errs == []
    {
      typeMap := tm;
      errs := [];
    }

    function Current(): State
      reads this
    {
      State(typeMap, errs)
    }

    method AddToTypeMap(name: string, typ: Types.PrimitiveType) returns (err: Option<string>)
      modifies this
      ensures Added(typeMap, err) == Unified(old(typeMap), name, typ)
      ensures errs == old(errs)
    {
      if name !in typeMap || typeMap[name] == Types.Any {
        typeMap := typeMap[name := typ];
        return None;
      }
      var existing := typeMap[name];
      if typ != Types.Any && typ != existing {
        return Some(ConflictMessage(name, typ, existing));
      }
      return None;
    }

    /** One `addToTypeMap(...); if err != nil { append }` of the source. */
    method Record(name: string, typ: Types.PrimitiveType)
      modifies this
      ensures Current() == Recorded(old(Current()), name, typ)
    {
      var err := AddToTypeMap(name, typ);
      if err.Some? {
        errs := errs + [err.value];
      }
    }

    method ParseExpressionTypes(e: Expr) returns (t: Types.PrimitiveType)
      modifies this
      ensures Inferred(t, Current()) == Infer(e, old(Current()))
      decreases e
    {
      match e {
        case Ident(_, name) =>
          Record(name, Types.Any);
          t := Types.Any;
        case NumberLit(_, _) =>
          t := Types.Number;
        case StringLit(_, _, _) =>
          t := Types.String;
        case BinaryExpr(x, op, y) =>
          var t1 := ParseExpressionTypes(x);
          var t2 := ParseExpressionTypes(y);
          t := Types.Any;
          if op.kind == ADD {
            if t1 == Types.String || t2 == Types.String {
              if x.Ident? {
                Record(x.name, Types.String);
              }
              if y.Ident? {
                Record(y.name, Types.String);
              }
              t := Types.String;
            } else if t1 == Types.Number || t2 == Types.Number {
              if x.Ident? {
                Record(x.name, Types.Number);
              }
              if y.Ident? {
                Record(y.name, Types.Number);
              }
              t := Types.Number;
            }
          }
        case _ =>
          t := Types.Any;
      }
    }
  }

  // ---------------------------------------------------------------
  // Properties
  // ---------------------------------------------------------------

  /** b keeps every name of a, and every concrete type a recorded. */
  predicate Refines(a: TypeMap, b: TypeMap) {
    a.Keys <= b.Keys && forall k :: k in a && a[k] != Types.Any ==> b[k] == a[k]
  }

  lemma RefinesTransitive(a: TypeMap, b: TypeMap, c: TypeMap)
    requires Refines(a, b) && Refines(b, c)
    ensures Refines(a, c)
  {
  }

  /** One addToTypeMap adds the name and never changes a concrete
      entry. */
  lemma AddRefines(tm: TypeMap, name: string, typ: Types.PrimitiveType)
    ensures Refines(tm, Unified(tm, name, typ).typeMap)
    ensures name in Unified(tm, name, typ).typeMap
  {
  }

  lemma RecordRefines(s: State, name: string, typ: Types.PrimitiveType)
    ensures Refines(s.typeMap, Recorded(s, name, typ).typeMap)
    ensures s.errs <= Recorded(s, name, typ).errs
  {
    AddRefines(s.typeMap, name, typ);
  }

  lemma ForceRefines(s: State, operand: Expr, typ: Types.PrimitiveType)
    ensures Refines(s.typeMap, Force(s, operand, typ).typeMap)
    ensures s.errs <= Force(s, operand, typ).errs
  {
    if operand.Ident? {
      RecordRefines(s, operand.name, typ);
    }
  }

  /** Inference only ever refines the map, and errors are only ever
      appended: a conflict never aborts it and never undoes what was
      recorded before. */
  lemma {:induction false} InferRefines(e: Expr, s: State)
    ensures Refines(s.typeMap, Infer(e, s).state.typeMap)
    ensures s.errs <= Infer(e, s).state.errs
    decreases e
  {
    match e
    case Ident(_, name) => RecordRefines(s, name, Types.Any);
    case BinaryExpr(x, op, y) =>
      var left := Infer(x, s);
      var right := Infer(y, left.state);
      InferRefines(x, s);
      InferRefines(y, left.state);
      RefinesTransitive(s.typeMap, left.state.typeMap, right.state.typeMap);
      var ty := if right.typ == Types.String || left.typ == Types.String then Types.String else Types.Number;
      var f1 := Force(right.state, x, ty);
      ForceRefines(right.state, x, ty);
      ForceRefines(f1, y, ty);
      RefinesTransitive(s.typeMap, right.state.typeMap, f1.typeMap);
      RefinesTransitive(s.typeMap, f1.typeMap, Force(f1, y, ty).typeMap);
    case _ =>
  }

  /** Every identifier inference visits ends up in the map. */
  lemma {:induction false} InferRecordsIdents(e: Expr, s: State)
    ensures Visited(e) <= Infer(e, s).state.typeMap.Keys
    decreases e
  {
    match e
    case Ident(_, name) =>
    case BinaryExpr(x, op, y) =>
      var left := Infer(x, s);
      InferRecordsIdents(x, s);
      InferRecordsIdents(y, left.state);
      InferRefines(y, left.state);
      var right := Infer(y, left.state);
      var ty := if right.typ == Types.String || left.typ == Types.String then Types.String else Types.Number;
      ForceRefines(right.state, x, ty);
      ForceRefines(Force(right.state, x, ty), y, ty);
    case _ =>
  }

  /** The identifiers parseExpressionTypes reaches: through `+` and the
      other binary operators, not into unary, ternary, paren or filter
      expressions. */
  function Visited(e: Expr): set<string> {
    match e
    case Ident(_, name) => {name}
    case BinaryExpr(x, _, y) => Visited(x) + Visited(y)
    case _ => {}
  }

  /** addToTypeMap with Any never errs and never changes a recorded
      entry. */
  lemma AnyNeverConflicts(tm: TypeMap, name: string)
    ensures Unified(tm, name, Types.Any).err.None?
    ensures name in tm ==> Unified(tm, name, Types.Any).typeMap == tm
  {
  }

  /** After `+` forced type t on the identifier name: the name is bound
      to a concrete type, which is t or else the conflict was reported. */
  predicate ForcedTo(st: State, name: string, t: Types.PrimitiveType) {
    name in st.typeMap && st.typeMap[name] != Types.Any
    && (st.typeMap[name] == t || ConflictMessage(name, t, st.typeMap[name]) in st.errs)
  }

  /** A later forcing keeps what an earlier one bound or reported. */
  lemma ForcedKept(s: State, name: string, t: Types.PrimitiveType, operand: Expr, t2: Types.PrimitiveType)
    requires ForcedTo(s, name, t)
    ensures ForcedTo(Force(s, operand, t2), name, t)
  {
    ForceRefines(s, operand, t2);
  }

  /** Both operands of a `+` whose type is t are forced to t. */
  lemma ForcedBoth(s: State, x: Expr, y: Expr, t: Types.PrimitiveType)
    requires t != Types.Any
    ensures x.Ident? ==> ForcedTo(Force(Force(s, x, t), y, t), x.name, t)
    ensures y.Ident? ==> ForcedTo(Force(Force(s, x, t), y, t), y.name, t)
    ensures s.errs <= Force(Force(s, x, t), y, t).errs
  {
    ForceRefines(s, x, t);
    ForceRefines(Force(s, x, t), y, t);
    if x.Ident? {
      ForcedKept(Force(s, x, t), x.name, t, y, t);
    }
  }

  /** The leaves: an identifier is Any and is recorded without error;
      number and string literals are Number and String and change
      nothing. */
  lemma InferLeaves(e: Expr, s: State)
    ensures e.Ident? ==> Infer(e, s).typ == Types.Any && e.name in Infer(e, s).state.typeMap
                         && Refines(s.typeMap, Infer(e, s).state.typeMap) && Infer(e, s).state.errs == s.errs
    ensures e.NumberLit? ==> Infer(e, s) == Inferred(Types.Number, s)
    ensures e.StringLit? ==> Infer(e, s) == Inferred(Types.String, s)
  {
    if e.Ident? {
      RecordRefines(s, e.name, Types.Any);
    }
  }

  /** The `+` rule: a String side makes the sum String, else a Number
      side makes it Number; either way each identifier operand is bound
      to that type or its conflict is reported, and nothing inferred
      for the operands is lost. With neither, or with any operator
      other than `+`, the result is Any and nothing more is recorded. */
  lemma InferBinaryRule(x: Expr, op: Kw, y: Expr, s: State)
    ensures var l := Infer(x, s);
            var r := Infer(y, l.state);
            var res := Infer(BinaryExpr(x, op, y), s);
            var t := if l.typ == Types.String || r.typ == Types.String then Types.String
                     else if l.typ == Types.Number || r.typ == Types.Number then Types.Number
                     else Types.Any;
            (op.kind == ADD ==> res.typ == t)
            && (op.kind == ADD && t != Types.Any ==>
                  (x.Ident? ==> ForcedTo(res.state, x.name, t))
                  && (y.Ident? ==> ForcedTo(res.state, y.name, t))
                  && Refines(r.state.typeMap, res.state.typeMap)
                  && r.state.errs <= res.state.errs)
            && (op.kind != ADD || t == Types.Any ==> res == Inferred(Types.Any, r.state))
  {
    var l := Infer(x, s);
    var r := Infer(y, l.state);
    if l.typ == Types.String || r.typ == Types.String {
      ForcedBoth(r.state, x, y, Types.String);
      ForceRefines(r.state, x, Types.String);
      ForceRefines(Force(r.state, x, Types.String), y, Types.String);
      RefinesTransitive(r.state.typeMap, Force(r.state, x, Types.String).typeMap,
                        Force(Force(r.state, x, Types.String), y, Types.String).typeMap);
    } else if l.typ == Types.Number || r.typ == Types.Number {
      ForcedBoth(r.state, x, y, Types.Number);
      ForceRefines(r.state, x, Types.Number);
      ForceRefines(Force(r.state, x, Types.Number), y, Types.Number);
      RefinesTransitive(r.state.typeMap, Force(r.state, x, Types.Number).typeMap,
                        Force(Force(r.state, x, Types.Number), y, Types.Number).typeMap);
    }
  }

  // Examples from the analyzer's own test table, starting from an empty
  // map.

  function Plus(x: Expr, y: Expr): Expr {
    BinaryExpr(x, Kw(ADD, NoPos), y)
  }

  lemma VarPlusNumber()
    ensures Infer(Plus(Ident(NoPos, "age"), NumberLit(NoPos, Decimal.FromInt(123))), State(map[], [])).state
         == State(map["age" := Types.Number], [])
    ensures Infer(Plus(NumberLit(NoPos, Decimal.FromInt(123)), Ident(NoPos, "age")), State(map[], [])).state
         == State(map["age" := Types.Number], [])
  {
  }

  lemma VarPlusVar()
    ensures Infer(Plus(Ident(NoPos, "age"), Ident(NoPos, "time")), State(map[], [])).state
         == State(map["age" := Types.Any, "time" := Types.Any], [])
  {
  }

  lemma VarPlusString()
    ensures Infer(Plus(Ident(NoPos, "name"), StringLit(NoPos, '\'', "ish")), State(map[], [])).state
         == State(map["name" := Types.String], [])
  {
  }

  /** `(a + 'x') + (a + 1)`: a is first forced to String, the second
      operand then demands Number, which is reported and leaves String
      in place; the whole is String. */
  lemma ConflictReported()
    ensures var r := Infer(Plus(Plus(Ident(NoPos, "a"), StringLit(NoPos, '\'', "x")),
                                Plus(Ident(NoPos, "a"), NumberLit(NoPos, Decimal.FromInt(1)))),
                           State(map[], []));
      r == Inferred(Types.String, State(map["a" := Types.String],
                                        [ConflictMessage("a", Types.Number, Types.String)]))
  {
    var s0 := State(map[], []);
    var a := Ident(NoPos, "a");
    var left := Infer(Plus(a, StringLit(NoPos, '\'', "x")), s0);
    assert left == Inferred(Types.String, State(map["a" := Types.String], []));
    var right := Infer(Plus(a, NumberLit(NoPos, Decimal.FromInt(1))), left.state);
    assert right == Inferred(Types.Number, State(map["a" := Types.String],
                                                 [ConflictMessage("a", Types.Number, Types.String)]));
  }

  /** %q leaves a plain name as it is and escapes a quote inside it. */
  lemma QuoteExamples()
    ensures Quote("a") == "\"a\""
    ensures Quote("a\"b") == "\"a\\\"b\""
  {
    assert Escape("a") == "a";
    assert Escape("b") == "b";
    assert Escape("\"b") == "\\\"b";
  }
}

/** The type errors of a checked template (analyzer/errors.go). */
module AnalyzerErrors {
  import opened Wrappers
  import opened Strings
  import Types

  datatype TypeError = TypeError(expectedType: Types.PrimitiveType, name: string, val: string)

  const Prefix: string := "TypeError: Variable '"

  /** TypeError.Error. */
  function Message(e: TypeError): (s: string)
    ensures |Prefix| + |e.name| < |s| && s[..|Prefix|] == Prefix
    ensures s[|Prefix|..|Prefix| + |e.name|] == e.name
  {
    Prefix + e.name + "' expected type '" + e.expectedType.name + "'"
  }

  function Messages(l: seq<TypeError>): (r: seq<string>)
    ensures |r| == |l| && forall i :: 0 <= i < |l| ==> r[i] == Message(l[i])
  {
    seq(|l|, i requires 0 <= i < |l| => Message(l[i]))
  }

  /** TypeErrors.Error: "no errors", the one message, or all messages
      joined by ", ". */
  function ListMessage(l: seq<TypeError>): (r: string)
    ensures |l| == 1 ==> r == Message(l[0])
    ensures |l| >= 2 ==> Message(l[0]) + ", " <= r
  {
    if |l| == 0 then "no errors"
    else if |l| == 1 then Message(l[0])
    else Join(Messages(l), ", ")
  }

  /** TypeErrors.Error as the source computes it. */
  method ListMessageLoop(l: seq<TypeError>) returns (s: string)
    ensures s == ListMessage(l)
  {
    if |l| == 0 {
      return "no errors";
    }
    if |l| == 1 {
      return Message(l[0]);
    }
    var b: seq<string> := [];
    for i := 0 to |l|
      invariant b == Messages(l[..i])
    {
      b := b + [Message(l[i])];
    }
    assert l[..|l|] == l;
    s := Join(b, ", ");
  }

  /** Err: no error for an empty list, the list itself otherwise. */
  function Err(l: seq<TypeError>): (r: Option<seq<TypeError>>)
    ensures r.None? <==> |l| == 0
    ensures r.Some? ==> r.value == l
  {
    if |l| == 0 then None else Some(l)
  }

  /** A TypeErrors value that Add appends to through a pointer. */
  class TypeErrors {
    var list: seq<TypeError>

    constructor ()
      ensures list == []
    {
      list := [];
    }

    /** Add: exactly one copy at the end, nothing else changed. */
    method Add(e: TypeError)
      modifies this
      ensures list == old(list) + [e]
    {
      list := list + [e];
    }
  }

  // ---------------------------------------------------------------
  // Properties
  // ---------------------------------------------------------------

  /** The single-error case is the join of one message, and a longer list
      is its first message, ", ", then the rest's. */
  lemma ListMessageSplit(l: seq<TypeError>)
    requires |l| >= 1
    ensures ListMessage(l) == Join(Messages(l), ", ")
    ensures |l| >= 2 ==> ListMessage(l) == Message(l[0]) + ", " + ListMessage(l[1..])
  {
    if |l| >= 2 {
      assert Messages(l)[1..] == Messages(l[1..]);
    }
  }

  /** "no errors" is the message exactly of the empty list; any other
      list's message starts with its first error's. */
  lemma NoErrorsOnlyForEmpty(l: seq<TypeError>)
    ensures ListMessage(l) == "no errors" <==> l == []
  {
    if l != [] {
      FirstMessageLeads(l);
      var m := Message(l[0]);
      assert ListMessage(l)[0] == m[0] == 'T';
    }
  }

  lemma FirstMessageLeads(l: seq<TypeError>)
    requires l != []
    ensures Message(l[0]) <= ListMessage(l)
  {
    if |l| >= 2 {
      ListMessageSplit(l);
      LeadsConcat(Message(l[0]), ", ", ListMessage(l[1..]));
    }
  }

  lemma LeadsConcat(a: string, b: string, c: string)
    ensures a <= a + b + c
  {
    assert (a + b + c)[..|a|] == a;
  }
}
