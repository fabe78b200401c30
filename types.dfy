/** Primitive types of template variables and the check of a host value
    against them (types/types.go). */
module Types {
  import opened Decimal

  /** PrimitiveType is a named string type; any string is a value of it,
      the four below are the declared constants. */
  datatype PrimitiveType = PrimitiveType(name: string)

  const Number: PrimitiveType := PrimitiveType("number")
  const String: PrimitiveType := PrimitiveType("string")
  const Boolean: PrimitiveType := PrimitiveType("boolean")
  const Any: PrimitiveType := PrimitiveType("any")

  /** Go's numeric kinds that a host value may have. */
  datatype NumericKind =
    | Int | Int8 | Int16 | Int32 | Int64
    | Uint | Uint8 | Uint16 | Uint32 | Uint64
    | Float32 | Float64 | Complex64 | Complex128

  /** A host value passed in as Go's `any`: its dynamic type and payload.
      Numeric payloads are kept as decimals; the numeric range of each
      kind is not modelled. */
  datatype Dynamic =
    | DString(s: string)
    | DBool(b: bool)
    | DNumeric(kind: NumericKind, n: Number)
    | DPointer(target: Dynamic)
    | DOther(typeName: string)

  predicate IsGoNumber(kind: NumericKind) {
    kind != Complex64 && kind != Complex128
  }

  /** PrimitiveType.IsValid: whether a host value is of the type, by its
      dynamic type only (no conversion; a pointer is never accepted). */
  function IsValid(t: PrimitiveType, v: Dynamic): (ok: bool)
    ensures t == Any ==> ok
    ensures t == Number ==> (ok <==> v.DNumeric? && IsGoNumber(v.kind))
    ensures t == Boolean ==> (ok <==> v.DBool?)
    ensures t == String ==> (ok <==> v.DString?)
    ensures t !in {Number, Boolean, String, Any} ==> !ok
  {
    if t == Number then
      match v
      case DNumeric(kind, _) => kind != Complex64 && kind != Complex128
      case _ => false
    else if t == Boolean then v.DBool?
    else if t == String then v.DString?
    else t == Any
  }

  /** PrimitiveType.GetDefaultValue: the text a variable of the type
      defaults to. */
  function GetDefaultValue(t: PrimitiveType): (s: string)
    ensures t == Number ==> s == "0"
    ensures t == Boolean ==> s == "false"
    ensures t != Number && t != Boolean ==> s == ""
  {
    if t == Number then "0"
    else if t == Boolean then "false"
    else ""
  }
}
