/** The three kinds of runtime value and their total coercions
    (value/value.go). */
module Values {
  import opened Strings
  import opened Wrappers
  import opened Decimal
  import Types

  /** StringValue, BooleanValue and NumberValue. */
  datatype Value = Str(s: string) | Bool(b: bool) | Num(n: Number)

  /** Numbers are always kept in normal form. */
  predicate WellFormed(v: Value) {
    v.Num? ==> Normal(v.n)
  }

  /** AsString: a string is itself, a boolean prints as nothing, a number
      as %.0f when integral and %g otherwise. */
  function AsString(v: Value): (s: string)
    requires WellFormed(v)
    ensures v.Str? ==> s == v.s
    ensures v.Bool? ==> s == ""
    ensures v.Num? ==> s != ""
  {
    match v
    case Str(s) => s
    case Bool(_) => ""
    case Num(n) => NumberString(n)
  }

  /** AsBoolean: non-empty text, the boolean itself, a non-zero number. */
  function AsBoolean(v: Value): (b: bool)
    ensures v.Str? ==> (b <==> |v.s| > 0)
    ensures v.Bool? ==> b == v.b
    ensures v.Num? && Normal(v.n) ==> (b <==> v.n != FromInt(0))
  {
    match v
    case Str(s) => s != ""
    case Bool(b) => b
    case Num(n) => !IsZero(n)
  }

  /** The fallback of StringValue.AsNumber: the sum of each character's
      code times its 1-based position. */
  function WeightedSum(s: string): (r: int)
    ensures r >= 0
    ensures r == 0 <==> forall i :: 0 <= i < |s| ==> s[i] == '\0'
    decreases |s|
  {
    if s == [] then 0 else WeightedSum(s[..|s| - 1]) + (s[|s| - 1] as int) * |s|
  }

  /** StringValue.AsNumber: the parsed number when the text is numeric,
      the weighted character sum otherwise. */
  function StringNumber(s: string): (n: Number)
    ensures Normal(n)
    ensures ParseDecimal(s).Some? ==> n == ParseDecimal(s).value
    ensures ParseDecimal(s).None? ==> n == FromInt(WeightedSum(s))
  {
    match ParseDecimal(s)
    case Some(n) => n
    case None => FromInt(WeightedSum(s))
  }

  /** AsNumber: booleans are 1 and 0. */
  function AsNumber(v: Value): (n: Number)
    requires WellFormed(v)
    ensures Normal(n)
    ensures v.Bool? ==> n == FromInt(if v.b then 1 else 0)
    ensures v.Num? ==> n == v.n
    ensures v.Str? ==> n == StringNumber(v.s)
  {
    match v
    case Str(s) => StringNumber(s)
    case Bool(b) => if b then FromInt(1) else FromInt(0)
    case Num(n) => n
  }

  /** The loop of StringValue.AsNumber for text that is not a number. */
  method WeightedSumLoop(s: string) returns (sum: int)
    ensures sum == WeightedSum(s)
  {
    sum := 0;
    for i := 0 to |s|
      invariant sum == WeightedSum(s[..i])
    {
      assert s[..i + 1][..i] == s[..i];
      sum := sum + (s[i] as int) * (i + 1);
    }
    assert s[..|s|] == s;
  }

  /** StringValue.AsNumber as the source computes it. */
  method StringAsNumber(s: string) returns (n: Number)
    ensures n == AsNumber(Str(s))
  {
    var parsed := ParseDecimal(s);
    if parsed.Some? {
      return parsed.value;
    }
    var sum := WeightedSumLoop(s);
    n := FromInt(sum);
  }

  /** Add: a string concatenates the other side's text; a number or a
      boolean sums with a number or boolean and concatenates otherwise. */
  function Add(v: Value, w: Value): (r: Value)
    requires WellFormed(v) && WellFormed(w)
    ensures WellFormed(r)
    ensures r.Str? <==> (v.Str? || w.Str?)
    ensures r.Str? ==> r.s == AsString(v) + AsString(w)
  {
    if v.Str? || w.Str? then Str(AsString(v) + AsString(w))
    else Num(Sum(AsNumber(v), AsNumber(w)))
  }

  /** Type: the primitive type that names the value's kind. */
  function TypeOf(v: Value): (t: Types.PrimitiveType)
    ensures t in {Types.String, Types.Boolean, Types.Number}
  {
    match v
    case Str(_) => Types.String
    case Bool(_) => Types.Boolean
    case Num(_) => Types.Number
  }

  /** FromAny: a string, float64, int or bool, or a pointer to one of
      them, becomes the matching value; every other dynamic type panics
      (None). */
  function FromAny(d: Types.Dynamic): (r: Option<Value>)
    ensures r.Some? ==> WellFormed(r.value)
  {
    match d
    case DPointer(t) =>
      if t.DPointer? then None else FromScalar(t)
    case _ => FromScalar(d)
  }

  function FromScalar(d: Types.Dynamic): (r: Option<Value>)
    ensures r.Some? ==> WellFormed(r.value)
  {
    match d
    case DString(s) => Some(Str(s))
    case DBool(b) => Some(Bool(b))
    case DNumeric(kind, n) =>
      if kind == Types.Float64 || kind == Types.Int then Some(Num(Normalize(n.mantissa, n.scale)))
      else None
    case _ => None
  }

  // ---------------------------------------------------------------
  // Properties
  // ---------------------------------------------------------------

  /** The lifted value keeps its host type: a host value FromAny accepts
      (other than through a pointer) is valid for the type the value
      reports, and the value has the host's payload. */
  lemma FromAnyKeepsType(d: Types.Dynamic)
    requires FromAny(d).Some? && !d.DPointer?
    ensures Types.IsValid(TypeOf(FromAny(d).value), d)
    ensures d.DString? ==> FromAny(d).value == Str(d.s)
    ensures d.DBool? ==> FromAny(d).value == Bool(d.b)
    ensures d.DNumeric? ==> FromAny(d).value.Num? && SameValue(FromAny(d).value.n, d.n)
  {
    if d.DNumeric? {
      NormalizeValue(d.n.mantissa, d.n.scale);
    }
  }

  /** FromAny accepts exactly the supported host types. */
  lemma FromAnyAccepts(d: Types.Dynamic)
    ensures FromAny(d).Some? <==>
      (var t := if d.DPointer? then d.target else d;
       t.DString? || t.DBool? || (t.DNumeric? && t.kind in {Types.Float64, Types.Int}))
  {
  }

  /** Truthiness of each kind: non-empty text, non-zero number. */
  lemma Truthiness(s: string, n: Number)
    ensures AsBoolean(Str(s)) <==> |s| > 0
    ensures AsBoolean(Num(n)) <==> n.mantissa != 0
    ensures AsBoolean(Bool(true)) && !AsBoolean(Bool(false))
  {
  }

  /** Booleans all print as the empty text, so their texts never differ. */
  lemma BooleansPrintAlike(a: bool, b: bool)
    ensures AsString(Bool(a)) == AsString(Bool(b)) == ""
  {
  }

  /** A boolean counts as 1 or 0 in a sum with a number. */
  lemma BooleanSum(b: bool, n: Number)
    requires Normal(n)
    ensures Add(Bool(b), Num(n)) == Num(Sum(FromInt(if b then 1 else 0), n))
    ensures Add(Num(n), Bool(b)) == Num(Sum(n, FromInt(if b then 1 else 0)))
  {
  }

  /** A number and a string concatenate in the order written. */
  lemma MixedAddConcatenates(n: Number, s: string)
    requires Normal(n)
    ensures Add(Num(n), Str(s)) == Str(NumberString(n) + s)
    ensures Add(Str(s), Num(n)) == Str(s + NumberString(n))
  {
  }

  /** Integral numbers print as their integer text: 1 prints as "1". */
  lemma IntegralPrints(i: int)
    ensures AsString(Num(FromInt(i))) == IntToString(i)
    ensures AsNumber(Str(IntToString(i))) == FromInt(i)
  {
    IntegralRoundTrip(i);
  }

  /** Text that is not a number counts as its weighted sum: "ab" is
      97 * 1 + 98 * 2. */
  lemma WeightedExample()
    ensures AsNumber(Str("ab")) == FromInt(293)
  {
    assert ParseDecimal("ab").None? by {
      assert DotIndex("ab") == 2;
      assert !IsDigit("ab"[0]);
    }
    assert "ab"[..1] == "a";
    assert "a"[..0] == "";
  }
}
