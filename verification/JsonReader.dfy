/** A reader of JSON text, written from section 2 to 8 of RFC 8259: what a text means,
    whoever printed it.  Members of an object come in text order. */
module JsonReader {
  import opened Json

  /** What was read, and the text after it. */
  datatype Parsed<T> = Parsed(value: T, rest: string)

  datatype Pair = Pair(key: string, value: Json)

  function SkipSpaces(t: string): (r: string)
    ensures |r| <= |t|
  {
    if t != "" && t[0] == ' ' then SkipSpaces(t[1..]) else t
  }

  function Literal(word: string, j: Json, t: string): (r: Option<Parsed<Json>>)
    requires word != ""
    ensures r.Some? ==> |r.value.rest| < |t|
  {
    if |word| <= |t| && t[..|word|] == word then Some(Parsed(j, t[|word|..])) else None
  }

  // ----- strings -----

  function HexValue(c: char): Option<nat> {
    if '0' <= c <= '9' then Some(c as int - '0' as int)
    else if 'a' <= c <= 'f' then Some(c as int - 'a' as int + 10)
    else if 'A' <= c <= 'F' then Some(c as int - 'A' as int + 10)
    else None
  }

  /** The character after a backslash, `u` apart. */
  function ShortEscape(c: char): Option<char> {
    if c == '\"' || c == '\\' || c == '/' then Some(c)
    else if c == 'b' then Some(8 as char)
    else if c == 't' then Some(9 as char)
    else if c == 'n' then Some(10 as char)
    else if c == 'f' then Some(12 as char)
    else if c == 'r' then Some(13 as char)
    else None
  }

  function CharOf(code: int): Option<char> {
    if 0 <= code < 0xD800 || 0xE000 <= code < 0x11_0000 then Some(code as char) else None
  }

  function LongEscape(digits: string): Option<char>
    requires |digits| == 4
  {
    match (HexValue(digits[0]), HexValue(digits[1]), HexValue(digits[2]), HexValue(digits[3]))
    case (Some(a), Some(b), Some(c), Some(d)) => CharOf(((a * 16 + b) * 16 + c) * 16 + d)
    case _ => None
  }

  function ReadChar(t: string): (r: Option<Parsed<char>>)
    requires t != ""
    ensures r.Some? ==> |r.value.rest| < |t|
  {
    if t[0] < ' ' then None
    else if t[0] != '\\' then Some(Parsed(t[0], t[1..]))
    else if |t| >= 6 && t[1] == 'u' then
      match LongEscape(t[2..6])
      case Some(c) => Some(Parsed(c, t[6..]))
      case None => None
    else if |t| >= 2 && ShortEscape(t[1]).Some? then Some(Parsed(ShortEscape(t[1]).value, t[2..]))
    else None
  }

  /** The rest of a string, up to its closing quote. */
  function ReadChars(t: string): (r: Option<Parsed<string>>)
    ensures r.Some? ==> |r.value.rest| < |t|
  {
    if t == "" then None
    else if t[0] == '\"' then Some(Parsed("", t[1..]))
    else
      match ReadChar(t)
      case None => None
      case Some(first) =>
        match ReadChars(first.rest)
        case None => None
        case Some(more) => Some(Parsed([first.value] + more.value, more.rest))
  }

  function ReadString(t: string): (r: Option<Parsed<string>>)
    ensures r.Some? ==> |r.value.rest| < |t|
  {
    if t != "" && t[0] == '\"' then ReadChars(t[1..]) else None
  }

  // ----- values -----

  function NumeralLength(t: string): (n: nat)
    ensures n <= |t|
  {
    if t != "" && IsNumeralChar(t[0]) then 1 + NumeralLength(t[1..]) else 0
  }

  function ReadNumeral(t: string): (r: Option<Parsed<Json>>)
    ensures r.Some? ==> |r.value.rest| < |t|
  {
    var n := NumeralLength(t);
    if n == 0 then None else Some(Parsed(Num(t[..n]), t[n..]))
  }

  function Read(t: string): (r: Option<Parsed<Json>>)
    ensures r.Some? ==> |r.value.rest| < |t|
    decreases |t|, 1
  {
    if t == "" then None
    else if t[0] == 'n' then Literal("null", Null, t)
    else if t[0] == 't' then Literal("true", Bool(true), t)
    else if t[0] == 'f' then Literal("false", Bool(false), t)
    else if t[0] == '\"' then
      match ReadString(t)
      case None => None
      case Some(s) => Some(Parsed(Str(s.value), s.rest))
    else if t[0] == '[' then
      match ReadArray(t)
      case None => None
      case Some(a) => Some(Parsed(Arr(a.value), a.rest))
    else if t[0] == '{' then
      match ReadObject(t)
      case None => None
      case Some(o) => Some(Parsed(Obj(FieldsOf(o.value)), o.rest))
    else ReadNumeral(t)
  }

  function ReadArray(t: string): (r: Option<Parsed<seq<Json>>>)
    requires t != "" && t[0] == '['
    ensures r.Some? ==> |r.value.rest| < |t|
    decreases |t|, 0
  {
    if |t| > 1 && t[1] == ']' then Some(Parsed([], t[2..])) else ReadItems(t[1..])
  }

  /** One or more items and the closing bracket. */
  function ReadItems(t: string): (r: Option<Parsed<seq<Json>>>)
    ensures r.Some? ==> |r.value.rest| < |t|
    decreases |t|, 2
  {
    match Read(t)
    case None => None
    case Some(first) =>
      if first.rest == "" then None
      else if first.rest[0] == ']' then Some(Parsed([first.value], first.rest[1..]))
      else if first.rest[0] != ',' then None
      else
        match ReadItems(SkipSpaces(first.rest[1..]))
        case None => None
        case Some(more) => Some(Parsed([first.value] + more.value, more.rest))
  }

  /** The members of an object, in text order. */
  function ReadObject(t: string): (r: Option<Parsed<seq<Pair>>>)
    requires t != "" && t[0] == '{'
    ensures r.Some? ==> |r.value.rest| < |t|
    decreases |t|, 0
  {
    if |t| > 1 && t[1] == '}' then Some(Parsed([], t[2..])) else ReadMembers(t[1..])
  }

  function ReadMember(t: string): (r: Option<Parsed<Pair>>)
    ensures r.Some? ==> |r.value.rest| < |t|
    decreases |t|, 2
  {
    match ReadString(t)
    case None => None
    case Some(key) =>
      if key.rest == "" || key.rest[0] != ':' then None
      else
        match Read(SkipSpaces(key.rest[1..]))
        case None => None
        case Some(value) => Some(Parsed(Pair(key.value, value.value), value.rest))
  }

  /** One or more members and the closing brace. */
  function ReadMembers(t: string): (r: Option<Parsed<seq<Pair>>>)
    ensures r.Some? ==> |r.value.rest| < |t|
    decreases |t|, 3
  {
    match ReadMember(t)
    case None => None
    case Some(first) =>
      if first.rest == "" then None
      else if first.rest[0] == '}' then Some(Parsed([first.value], first.rest[1..]))
      else if first.rest[0] != ',' then None
      else
        match ReadMembers(SkipSpaces(first.rest[1..]))
        case None => None
        case Some(more) => Some(Parsed([first.value] + more.value, more.rest))
  }

  /** The object of these members; of two with one key the later counts. */
  function FieldsOf(members: seq<Pair>): Fields {
    if members == [] then map[]
    else
      var rest := FieldsOf(members[1..]);
      if members[0].key in rest then rest else rest[members[0].key := members[0].value]
  }
}
