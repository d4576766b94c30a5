/** JSON values as the TypeScript code sees them after parsing, and the small
    field reads (`obj['k']`, `'k' in obj`, truthiness) the verifiers use. */
module Json {

  datatype Option<+T> = None | Some(value: T) {
    /** `x ?? default`. */
    function GetOr(default: T): T {
      match this
      case None => default
      case Some(v) => v
    }
  }

  /** An object is a map from key to value: a JavaScript object has one value per
      key, and canonical text does not depend on insertion order.  A finite number
      is represented by the text `JSON.stringify` prints for it (the shortest
      round-trip numeral), so two numbers are `===` exactly when their texts agree. */
  datatype Json =
    | Null
    | Bool(b: bool)
    | Num(text: string)
    | Str(s: string)
    | Arr(items: seq<Json>)
    | Obj(fields: map<string, Json>)

  type Fields = map<string, Json>

  predicate IsNumeralChar(c: char) {
    '0' <= c <= '9' || c == '+' || c == '-' || c == '.' || c == 'e'
  }

  predicate IsNumeral(text: string) {
    text != "" && forall i | 0 <= i < |text| :: IsNumeralChar(text[i])
  }

  /** Every number inside the value carries a numeral. */
  predicate WellFormed(j: Json)
    decreases j
  {
    match j
    case Num(text) => IsNumeral(text)
    case Arr(items) => forall x | x in items :: WellFormed(x)
    case Obj(fields) => forall k | k in fields :: WellFormed(fields[k])
    case _ => true
  }

  predicate WellFormedFields(fields: Fields) {
    forall k | k in fields :: WellFormed(fields[k])
  }

  /** `fields[key]`, with None for `undefined`. */
  function Get(fields: Fields, key: string): Option<Json> {
    if key in fields then Some(fields[key]) else None
  }

  /** The string under `key`, or None (the code's `null`) when it is missing or not a string. */
  function GetString(fields: Fields, key: string): Option<string> {
    if key in fields && fields[key].Str? then Some(fields[key].s) else None
  }

  /** JavaScript truthiness of a present value; NaN cannot occur in JSON. */
  predicate Truthy(j: Json) {
    match j
    case Null => false
    case Bool(b) => b
    case Num(text) => text != "0"
    case Str(s) => s != ""
    case Arr(_) => true
    case Obj(_) => true
  }

  /** An object literal field whose value may be `undefined`: the canonical
      serializer leaves such a field out. */
  function Put(fields: Fields, key: string, value: Option<Json>): Fields {
    match value
    case None => fields
    case Some(v) => fields[key := v]
  }

  function Digit(d: nat): char
    requires d < 10
  {
    ('0' as int + d) as char
  }

  /** Decimal text of a natural number, as `String(n)` prints it below 1e21. */
  function NatText(n: nat): (t: string)
    ensures IsNumeral(t)
  {
    if n < 10 then [Digit(n)] else NatText(n / 10) + [Digit(n % 10)]
  }
}
